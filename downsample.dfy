/**
  downsample_graph as a whole: candidates, sort, greedy matching, the index
  maps between a level and the next coarser one, the coarse adjacency, and
  the positions, normals and areas of the coarse vertices. The area-weighted
  averaging of a merged pair's position and normal is floating-point
  geometry and is supplied by the caller as a Pool function; areas are
  summed exactly.
 */
module Downsample {
  import opened Graph
  import opened Vectors
  import opened Matching
  import opened CoarseAdjacency

  lemma CountTruePrefixStep(f: seq<bool>, i: nat)
    requires i < |f|
    ensures CountTrue(f[..i + 1]) == CountTrue(f[..i]) + (if f[i] then 1 else 0)
  {
    assert f[..i + 1][..i] == f[..i];
  }

  /** At most one flag per position past i can be set. */
  lemma {:induction false} CountTrueTail(f: seq<bool>, i: nat)
    requires i <= |f|
    ensures CountTrue(f) <= CountTrue(f[..i]) + (|f| - i)
  {
    if i == |f| {
      assert f[..i] == f;
    } else {
      var g := f[..|f| - 1];
      CountTrueTail(g, i);
      assert g[..i] == f[..i];
    }
  }

  /** The number of unclaimed vertices below v: a carried-over vertex's
      position among the carried-over ones. */
  ghost function Rank(f: seq<bool>, v: nat): nat
    requires v <= |f|
  {
    v - CountTrue(f[..v])
  }

  lemma RankStep(f: seq<bool>, v: nat)
    requires v < |f|
    ensures Rank(f, v + 1) == Rank(f, v) + (if f[v] then 0 else 1)
  {
    CountTruePrefixStep(f, v);
  }

  lemma {:induction false} RankMonotone(f: seq<bool>, v: nat, w: nat)
    requires v <= w <= |f|
    ensures Rank(f, v) <= Rank(f, w)
    ensures v < w && !f[v] ==> Rank(f, v) < Rank(f, w)
    decreases w - v
  {
    if v < w {
      RankStep(f, v);
      RankMonotone(f, v + 1, w);
    }
  }

  /** Columns numbered by the rank of their first slot list those slots in
      ascending order. */
  lemma RanksAscending(U: seq<Upper>, k: nat, hi: nat, f: seq<bool>)
    requires hi <= |U|
    requires forall c :: k <= c < hi ==> U[c].first < |f| && !f[U[c].first] && c == k + Rank(f, U[c].first)
    ensures forall c, c' :: k <= c < c' < hi ==> U[c].first < U[c'].first
  {
    forall c, c' | k <= c < c' < hi ensures U[c].first < U[c'].first {
      if U[c'].first <= U[c].first {
        RankMonotone(f, U[c'].first, U[c].first);
      }
    }
  }

  /** Fine vertex v was merged with a partner (rather than carried over on
      its own): its coarse column has a second slot. */
  ghost predicate Merged(toUpper: seq<Upper>, toLower: seq<nat>, v: nat)
    requires v < |toLower| && toLower[v] < |toUpper|
  {
    toUpper[toLower[v]].second != INVALID
  }

  /** Fills to_upper and to_lower (src/hierarchy.cpp:78-131, the sequential
      copy loop that the deterministic mode runs): the accepted pairs become
      coarse vertices 0 .. |m|-1 in order, then every unclaimed fine vertex
      is carried over on its own, in ascending fine order. */
  method BuildIndexMaps(m: seq<Entry>, f: seq<bool>, n: nat) returns (toUpper: seq<Upper>, toLower: seq<nat>)
    requires IsMatching(m, f, n) && n < INVALID
    ensures |toUpper| == n - |m|
    ensures IndexMapsInverse(toUpper, toLower, n)
    ensures forall c :: 0 <= c < |m| ==> toUpper[c] == Upper(m[c].i, m[c].j)
    ensures forall c :: |m| <= c < |toUpper| ==> toUpper[c].second == INVALID && !f[toUpper[c].first]
    ensures forall c, c' :: |m| <= c < c' < |toUpper| ==> toUpper[c].first < toUpper[c'].first
    ensures forall v :: 0 <= v < n ==> (f[v] <==> toLower[v] < |m|)
  {
    var ups := new Upper[n - |m|](_ => Upper(0, INVALID));
    var lows := new nat[n](_ => 0);
    PlacePairs(ups, lows, m, n);
    ghost var P, Lp := ups[..], lows[..];
    CarryOver(ups, lows, |m|, f);
    toUpper := ups[..];
    toLower := lows[..];
    MapsOfMatching(m, f, n, P, Lp, toUpper, toLower);
  }

  /** The first loop of src/hierarchy.cpp:87-107: accepted pair c becomes
      coarse vertex c, and both its endpoints map to it. */
  method PlacePairs(ups: array<Upper>, lows: array<nat>, m: seq<Entry>, n: nat)
    requires |m| <= ups.Length && lows.Length == n
    requires forall a :: 0 <= a < |m| ==> m[a].i < n && m[a].j < n
    requires PairwiseDisjoint(m)
    modifies ups, lows
    ensures ups[|m|..] == old(ups[|m|..])
    ensures forall c :: 0 <= c < |m| ==> ups[c] == Upper(m[c].i, m[c].j)
    ensures forall c :: 0 <= c < |m| ==> lows[m[c].i] == c && lows[m[c].j] == c
  {
    for c := 0 to |m|
      invariant ups[|m|..] == old(ups[|m|..])
      invariant forall c' :: 0 <= c' < c ==> ups[c'] == Upper(m[c'].i, m[c'].j)
      invariant forall c' :: 0 <= c' < c ==> lows[m[c'].i] == c' && lows[m[c'].j] == c'
    {
      ups[c] := Upper(m[c].i, m[c].j);
      lows[m[c].i] := c;
      lows[m[c].j] := c;
    }
  }

  /** copy_uncollapsed run sequentially (src/hierarchy.cpp:111-131): every
      unclaimed fine vertex, in ascending order, gets the next free coarse id
      from k on; the columns below k and the claimed vertices' entries are
      left alone. */
  method CarryOver(ups: array<Upper>, lows: array<nat>, k: nat, f: seq<bool>)
    requires lows.Length == |f| < INVALID && CountTrue(f) == 2 * k && ups.Length == |f| - k
    modifies ups, lows
    ensures CarriedUpTo(old(ups[..]), old(lows[..]), ups[..], lows[..], k, f, |f|, ups.Length)
  {
    ghost var U0, L0 := ups[..], lows[..];
    ghost var U, L := U0, L0;
    var offset: nat := k;
    for i := 0 to |f|
      invariant ups[..] == U && lows[..] == L
      invariant CarriedUpTo(U0, L0, U, L, k, f, i, offset)
    {
      if !f[i] {
        CarryRoom(k, f, i);
        ups[offset] := Upper(i, INVALID);
        lows[i] := offset;
        CarryStep(U0, L0, U, L, k, f, i, offset);
        U, L := U[offset := Upper(i, INVALID)], L[i := offset];
        offset := offset + 1;
      } else {
        SkipStep(U0, L0, U, L, k, f, i, offset);
      }
    }
    assert f[..|f|] == f;
  }

  /** While an unclaimed vertex is left, a carried-over column is free. */
  lemma CarryRoom(k: nat, f: seq<bool>, i: nat)
    requires CountTrue(f) == 2 * k && i < |f| && !f[i]
    ensures k + Rank(f, i) < |f| - k
  {
    RankStep(f, i);
    CountTrueTail(f, i + 1);
  }

  /** The state of the copy loop after fine vertices 0 .. i-1: columns
      k .. offset-1 hold the unclaimed ones among them in ascending order and
      to_lower points back at them; the pair columns and the claimed
      vertices' entries of the initial U0, L0 are untouched. */
  ghost predicate CarriedUpTo(U0: seq<Upper>, L0: seq<nat>, U: seq<Upper>, L: seq<nat>, k: nat, f: seq<bool>, i: nat, offset: nat) {
    && |U| == |U0| && |L| == |L0| == |f| && k <= offset <= |U| && i <= |f|
    && offset == k + Rank(f, i)
    && U[..k] == U0[..k]
    && (forall v :: 0 <= v < |f| && f[v] ==> L[v] == L0[v])
    && (forall c :: k <= c < offset ==>
          U[c].second == INVALID && U[c].first < i && !f[U[c].first] && L[U[c].first] == c
          && c == k + Rank(f, U[c].first))
    && (forall v :: 0 <= v < i && !f[v] ==> k <= L[v] < offset && U[L[v]].first == v)
  }

  lemma CarryStep(U0: seq<Upper>, L0: seq<nat>, U: seq<Upper>, L: seq<nat>, k: nat, f: seq<bool>, i: nat, offset: nat)
    requires CarriedUpTo(U0, L0, U, L, k, f, i, offset) && i < |f| && !f[i] && offset < |U|
    ensures CarriedUpTo(U0, L0, U[offset := Upper(i, INVALID)], L[i := offset], k, f, i + 1, offset + 1)
  {
    RankStep(f, i);
    var U', L' := U[offset := Upper(i, INVALID)], L[i := offset];
    assert U'[..k] == U[..k];
    forall c | k <= c < offset + 1
      ensures U'[c].second == INVALID && U'[c].first < i + 1 && !f[U'[c].first] && L'[U'[c].first] == c
    {
      if c < offset {
        assert U[c].first != i;
      }
    }
  }

  lemma SkipStep(U0: seq<Upper>, L0: seq<nat>, U: seq<Upper>, L: seq<nat>, k: nat, f: seq<bool>, i: nat, offset: nat)
    requires CarriedUpTo(U0, L0, U, L, k, f, i, offset) && i < |f| && f[i]
    ensures CarriedUpTo(U0, L0, U, L, k, f, i + 1, offset)
  {
    RankStep(f, i);
  }

  /** A claimed vertex is an endpoint of one of the pairs, an unclaimed one
      of none. */
  lemma ClaimedAreTouched(m: seq<Entry>, f: seq<bool>, n: nat)
    requires IsMatching(m, f, n)
    ensures forall a :: 0 <= a < |m| ==> f[m[a].i] && f[m[a].j]
  {
    forall a | 0 <= a < |m| ensures f[m[a].i] && f[m[a].j] {
      assert Touches(m[a], m[a].i) && Touches(m[a], m[a].j);
    }
  }

  /** The layout built by PlacePairs and then CarryOver makes to_upper and
      to_lower inverse, with the pairs first and the carried-over vertices
      after them in ascending order. */
  lemma MapsOfMatching(m: seq<Entry>, f: seq<bool>, n: nat, P: seq<Upper>, Lp: seq<nat>,
                       toUpper: seq<Upper>, toLower: seq<nat>)
    requires IsMatching(m, f, n) && n < INVALID && |m| <= |P| && |Lp| == n
    requires forall c :: 0 <= c < |m| ==> P[c] == Upper(m[c].i, m[c].j)
    requires forall c :: 0 <= c < |m| ==> Lp[m[c].i] == c && Lp[m[c].j] == c
    requires CarriedUpTo(P, Lp, toUpper, toLower, |m|, f, n, |P|)
    ensures IndexMapsInverse(toUpper, toLower, n)
    ensures forall c :: 0 <= c < |m| ==> toUpper[c] == Upper(m[c].i, m[c].j)
    ensures forall c :: |m| <= c < |toUpper| ==> toUpper[c].second == INVALID && !f[toUpper[c].first]
    ensures forall c, c' :: |m| <= c < c' < |toUpper| ==> toUpper[c].first < toUpper[c'].first
    ensures forall v :: 0 <= v < n ==> (f[v] <==> toLower[v] < |m|)
  {
    ClaimedAreTouched(m, f, n);
    forall c | 0 <= c < |m| ensures toUpper[c] == Upper(m[c].i, m[c].j) {
      assert toUpper[c] == toUpper[..|m|][c];
    }
    RanksAscending(toUpper, |m|, |toUpper|, f);
    FineVerticesPlaced(m, f, n, toUpper, toLower);
  }

  /** Each fine vertex lies in the column it maps to: a claimed one in its
      pair's column, an unclaimed one in its own. */
  lemma FineVerticesPlaced(m: seq<Entry>, f: seq<bool>, n: nat, toUpper: seq<Upper>, toLower: seq<nat>)
    requires IsMatching(m, f, n) && |toLower| == n && |m| <= |toUpper|
    requires forall c :: 0 <= c < |m| ==> toUpper[c] == Upper(m[c].i, m[c].j)
    requires forall c :: 0 <= c < |m| ==> toLower[m[c].i] == c && toLower[m[c].j] == c
    requires forall v :: 0 <= v < n && !f[v] ==> |m| <= toLower[v] < |toUpper| && toUpper[toLower[v]].first == v
    ensures forall v :: 0 <= v < n ==>
              toLower[v] < |toUpper| && (toUpper[toLower[v]].first == v || toUpper[toLower[v]].second == v)
    ensures forall v :: 0 <= v < n ==> (f[v] <==> toLower[v] < |m|)
  {
    forall v | 0 <= v < n
      ensures toLower[v] < |toUpper| && (toUpper[toLower[v]].first == v || toUpper[toLower[v]].second == v)
      ensures f[v] <==> toLower[v] < |m|
    {
      if f[v] {
        var a :| 0 <= a < |m| && Touches(m[a], v);
      }
    }
  }

  /** A coarse list never names its own vertex. */
  lemma CoarseListLoopFree(l: seq<Link>, adj: Adjacency, n: nat, toLower: seq<nat>, up: Upper, c: nat)
    requires WellFormed(adj, n) && ColumnIn(up, n) && |toLower| == n
    requires IsCoarseList(l, adj, n, toLower, up, c)
    ensures forall x :: x in l ==> x.id != c
  {
    forall x | x in l ensures x.id != c {
      assert x.id in Ids(l);
    }
  }

  /** Candidates taken from a loop-free graph name two distinct vertices. */
  lemma EntriesArePairs(adj: Adjacency, n: nat, N: seq<Vec3>, A: seq<real>, score: ScoreFn)
    requires WellFormed(adj, n) && LoopFree(adj, n) && |N| == n && |A| == n
    ensures InRange(EntriesUpTo(adj, n, N, A, score, n), n)
    ensures NoSelfPairs(EntriesUpTo(adj, n, N, A, score, n))
  {
    EntriesAreLinks(adj, n, N, A, score, n);
    forall e | e in EntriesUpTo(adj, n, N, A, score, n) ensures e.i != e.j {
      assert IsNeighbor(adj, n, e.i, e.j);
      var l :| l in Neighbors(adj, n, e.i) && l.id == e.j;
    }
  }

  /** The matching half of downsample_graph (src/hierarchy.cpp:38-77): on a
      loop-free graph the pairs and flags are exactly those of the greedy
      pass over the candidates sorted by descending score; they form a
      matching whose pairs are links of the graph; it is maximal (every link
      has a claimed endpoint) and non-empty when the graph has a link. */
  method MatchVertices(adj: Adjacency, n: nat, N: seq<Vec3>, A: seq<real>, score: ScoreFn)
    returns (m: seq<Entry>, f: seq<bool>)
    requires WellFormed(adj, n) && LoopFree(adj, n) && |N| == n && |A| == n
    ensures InRange(SortEntries(EntriesUpTo(adj, n, N, A, score, n)), n)
    ensures m == Greedy(SortEntries(EntriesUpTo(adj, n, N, A, score, n)), Unclaimed(n)).0
    ensures f == Greedy(SortEntries(EntriesUpTo(adj, n, N, A, score, n)), Unclaimed(n)).1
    ensures IsMatching(m, f, n)
    ensures forall a :: 0 <= a < |m| ==> IsNeighbor(adj, n, m[a].i, m[a].j)
    ensures forall u, l :: 0 <= u < n && l in Neighbors(adj, n, u) ==> f[u] || f[l.id]
    ensures |adj.links| > 0 ==> |m| > 0
  {
    var entries := CollectEntries(adj, n, N, A, score);
    EntriesArePairs(adj, n, N, A, score);
    var sorted := SortEntries(entries);
    SameElements(entries, sorted);
    var buf := new Entry[|sorted|](k requires 0 <= k < |sorted| => sorted[k]);
    assert buf[..] == sorted;
    var nCollapsed, mergeFlag := GreedyMatch(buf, n);
    m, f := buf[..nCollapsed], mergeFlag[..];
    GreedyMatching(sorted, n);
    GreedyDisjoint(sorted, Unclaimed(n));
    GreedyIsMaximal(sorted, Unclaimed(n));
    PairsAreLinks(adj, n, N, A, score, sorted, m);
    MaximalOverLinks(adj, n, N, A, score, sorted, f);
  }

  /** Two sequences with the same multiset have the same elements and length. */
  lemma SameElements(a: seq<Entry>, b: seq<Entry>)
    requires multiset(a) == multiset(b)
    ensures forall e :: e in a <==> e in b
    ensures |a| == |b|
  {
    assert |a| == |multiset(a)|;
    forall e ensures e in a <==> e in b {
      assert e in a <==> e in multiset(a);
      assert e in b <==> e in multiset(b);
    }
  }

  lemma PairsAreLinks(adj: Adjacency, n: nat, N: seq<Vec3>, A: seq<real>, score: ScoreFn, sorted: seq<Entry>, m: seq<Entry>)
    requires WellFormed(adj, n) && |N| == n && |A| == n
    requires forall e :: e in sorted ==> e in EntriesUpTo(adj, n, N, A, score, n)
    requires forall a :: 0 <= a < |m| ==> m[a] in sorted
    ensures forall a :: 0 <= a < |m| ==> m[a].i < n && IsNeighbor(adj, n, m[a].i, m[a].j)
  {
    EntriesAreLinks(adj, n, N, A, score, n);
  }

  /** Maximality of the greedy pass, restated over the fine graph: every
      link has a claimed endpoint. */
  lemma MaximalOverLinks(adj: Adjacency, n: nat, N: seq<Vec3>, A: seq<real>, score: ScoreFn, sorted: seq<Entry>, f: seq<bool>)
    requires WellFormed(adj, n) && |N| == n && |A| == n
    requires forall e :: e in EntriesUpTo(adj, n, N, A, score, n) ==> e in sorted
    requires |f| == n && forall e :: e in sorted ==> e.i < n && e.j < n && (f[e.i] || f[e.j])
    ensures forall u, l :: 0 <= u < n && l in Neighbors(adj, n, u) ==> f[u] || f[l.id]
  {
    EntriesAreLinks(adj, n, N, A, score, n);
    forall u, l | 0 <= u < n && l in Neighbors(adj, n, u) ensures f[u] || f[l.id] {
      var e :| e in EntriesUpTo(adj, n, N, A, score, n) && e.i == u && e.j == l.id;
      assert e in sorted;
    }
  }

  /** downsample_graph (src/hierarchy.cpp:24-208) on a loop-free graph of n
      vertices: the greedy matching collapses nCollapsed disjoint pairs of
      linked vertices, so the coarse level has n - nCollapsed vertices; the
      index maps are inverse, pairs first, in the order the greedy pass over
      the candidates sorted by descending score accepted them, and
      carried-over vertices after them in ascending order; the matching is
      maximal (every fine link has a merged endpoint); and the coarse
      adjacency is well formed, loop free, and holds, for each coarse
      vertex, its strictly ascending coarse list with summed weights. */
  method DownsampleGraph(adj: Adjacency, n: nat, N: seq<Vec3>, A: seq<real>, score: ScoreFn)
    returns (adjP: Adjacency, toUpper: seq<Upper>, toLower: seq<nat>, nCollapsed: nat)
    requires WellFormed(adj, n) && LoopFree(adj, n) && |N| == n && |A| == n && n < INVALID
    ensures 2 * nCollapsed <= n && |toUpper| == n - nCollapsed
    ensures |adj.links| > 0 ==> nCollapsed > 0
    ensures IndexMapsInverse(toUpper, toLower, n)
    ensures forall c :: 0 <= c < |toUpper| ==> (toUpper[c].second != INVALID <==> c < nCollapsed)
    ensures forall c :: 0 <= c < nCollapsed ==> IsNeighbor(adj, n, toUpper[c].first, toUpper[c].second)
    ensures InRange(SortEntries(EntriesUpTo(adj, n, N, A, score, n)), n)
    ensures var G := Greedy(SortEntries(EntriesUpTo(adj, n, N, A, score, n)), Unclaimed(n)).0;
            nCollapsed == |G| && forall c :: 0 <= c < nCollapsed ==> toUpper[c] == Upper(G[c].i, G[c].j)
    ensures forall c, c' :: nCollapsed <= c < c' < |toUpper| ==> toUpper[c].first < toUpper[c'].first
    ensures forall u, l :: 0 <= u < n && l in Neighbors(adj, n, u) ==>
              Merged(toUpper, toLower, u) || Merged(toUpper, toLower, l.id)
    ensures WellFormed(adjP, |toUpper|) && LoopFree(adjP, |toUpper|)
    ensures forall c :: 0 <= c < |toUpper| ==>
              IsCoarseList(Neighbors(adjP, |toUpper|, c), adj, n, toLower, toUpper[c], c)
  {
    toUpper, toLower, nCollapsed := CollapseMatching(adj, n, N, A, score);
    adjP := BuildCoarseAdjacency(adj, n, toUpper, toLower);
    CoarseLoopFree(adj, n, toUpper, toLower, adjP);
  }

  /** The first half of downsample_graph (src/hierarchy.cpp:26-115): match
      the vertices greedily and number the coarse vertices, pairs first in
      the order the greedy pass accepted them, carried-over vertices after
      them in ascending order. */
  method CollapseMatching(adj: Adjacency, n: nat, N: seq<Vec3>, A: seq<real>, score: ScoreFn)
    returns (toUpper: seq<Upper>, toLower: seq<nat>, nCollapsed: nat)
    requires WellFormed(adj, n) && LoopFree(adj, n) && |N| == n && |A| == n && n < INVALID
    ensures 2 * nCollapsed <= n && |toUpper| == n - nCollapsed
    ensures |adj.links| > 0 ==> nCollapsed > 0
    ensures IndexMapsInverse(toUpper, toLower, n)
    ensures forall c :: 0 <= c < |toUpper| ==> (toUpper[c].second != INVALID <==> c < nCollapsed)
    ensures forall c :: 0 <= c < nCollapsed ==> IsNeighbor(adj, n, toUpper[c].first, toUpper[c].second)
    ensures InRange(SortEntries(EntriesUpTo(adj, n, N, A, score, n)), n)
    ensures var G := Greedy(SortEntries(EntriesUpTo(adj, n, N, A, score, n)), Unclaimed(n)).0;
            nCollapsed == |G| && forall c :: 0 <= c < nCollapsed ==> toUpper[c] == Upper(G[c].i, G[c].j)
    ensures forall c, c' :: nCollapsed <= c < c' < |toUpper| ==> toUpper[c].first < toUpper[c'].first
    ensures forall u, l :: 0 <= u < n && l in Neighbors(adj, n, u) ==>
              Merged(toUpper, toLower, u) || Merged(toUpper, toLower, l.id)
  {
    var m, f := MatchVertices(adj, n, N, A, score);
    nCollapsed := |m|;
    toUpper, toLower := BuildIndexMaps(m, f, n);
    MergedIsClaimed(m, f, n, toUpper, toLower);
  }

  /** A coarse adjacency made of coarse lists has no self-links. */
  lemma CoarseLoopFree(adj: Adjacency, n: nat, toUpper: seq<Upper>, toLower: seq<nat>, adjP: Adjacency)
    requires WellFormed(adj, n) && IndexMapsInverse(toUpper, toLower, n) && WellFormed(adjP, |toUpper|)
    requires forall c :: 0 <= c < |toUpper| ==>
               IsCoarseList(Neighbors(adjP, |toUpper|, c), adj, n, toLower, toUpper[c], c)
    ensures LoopFree(adjP, |toUpper|)
  {
    forall c | 0 <= c < |toUpper|
      ensures forall x :: x in Neighbors(adjP, |toUpper|, c) ==> x.id != c
    {
      CoarseListLoopFree(Neighbors(adjP, |toUpper|, c), adj, n, toLower, toUpper[c], c);
    }
  }

  /** A fine vertex is merged exactly when the matching claimed it; the
      two-slot columns are exactly the first |m| ones. */
  lemma MergedIsClaimed(m: seq<Entry>, f: seq<bool>, n: nat, toUpper: seq<Upper>, toLower: seq<nat>)
    requires IsMatching(m, f, n) && n < INVALID && IndexMapsInverse(toUpper, toLower, n) && |m| <= |toUpper|
    requires forall c :: 0 <= c < |m| ==> toUpper[c] == Upper(m[c].i, m[c].j)
    requires forall c :: |m| <= c < |toUpper| ==> toUpper[c].second == INVALID
    requires forall v :: 0 <= v < n ==> (f[v] <==> toLower[v] < |m|)
    ensures forall c :: 0 <= c < |toUpper| ==> (toUpper[c].second != INVALID <==> c < |m|)
    ensures forall v :: 0 <= v < n ==> (Merged(toUpper, toLower, v) <==> f[v])
  {
  }

  // ---------------------------------------------------------------------
  // Coarse positions, normals and areas
  // ---------------------------------------------------------------------

  /** The position and normal of a merged pair, from both constituents'
      positions, normals and areas (src/hierarchy.cpp:92-100: the
      area-weighted mean, with its RCPOVERFLOW fallbacks). */
  type Pool = (Vec3, Vec3, real, Vec3, Vec3, real) -> (Vec3, Vec3)

  /** One coarse vertex: position, normal and area. */
  datatype Sample = Sample(p: Vec3, n: Vec3, area: real)

  /** The coarse vertex of column up: a merged pair is pooled and its area
      is the sum of both areas (src/hierarchy.cpp:91-101); a carried-over
      vertex is copied (src/hierarchy.cpp:116-119). */
  function Pooled(V: seq<Vec3>, N: seq<Vec3>, A: seq<real>, up: Upper, pool: Pool): (r: Sample)
    requires Parents(up, |V|) && |N| == |V| && |A| == |V|
    ensures r.area == A[up.first] + (if up.second != INVALID then A[up.second] else 0.0)
    ensures up.second == INVALID ==> r == Sample(V[up.first], N[up.first], A[up.first])
  {
    if up.second == INVALID then Sample(V[up.first], N[up.first], A[up.first])
    else
      var (p, n) := pool(V[up.first], N[up.first], A[up.first], V[up.second], N[up.second], A[up.second]);
      Sample(p, n, A[up.first] + A[up.second])
  }

  /** Fills V_p, N_p and A_p column by column (the writes of
      src/hierarchy.cpp:92-100 and 116-118, done here in one pass over
      to_upper). */
  method CoarseSamples(V: seq<Vec3>, N: seq<Vec3>, A: seq<real>, toUpper: seq<Upper>, pool: Pool)
    returns (Vp: seq<Vec3>, Np: seq<Vec3>, Ap: seq<real>)
    requires |N| == |V| && |A| == |V|
    requires forall c :: 0 <= c < |toUpper| ==> Parents(toUpper[c], |V|)
    ensures |Vp| == |toUpper| && |Np| == |toUpper| && |Ap| == |toUpper|
    ensures forall c :: 0 <= c < |toUpper| ==> Sample(Vp[c], Np[c], Ap[c]) == Pooled(V, N, A, toUpper[c], pool)
  {
    var vs := new Vec3[|toUpper|](_ => Zero);
    var ns := new Vec3[|toUpper|](_ => Zero);
    var areas := new real[|toUpper|](_ => 0.0);
    for c := 0 to |toUpper|
      invariant forall c' :: 0 <= c' < c ==> Sample(vs[c'], ns[c'], areas[c']) == Pooled(V, N, A, toUpper[c'], pool)
    {
      var s := Pooled(V, N, A, toUpper[c], pool);
      vs[c], ns[c], areas[c] := s.p, s.n, s.area;
    }
    Vp, Np, Ap := vs[..], ns[..], areas[..];
  }

  /** The sum of a sequence of areas. */
  function Total(s: seq<real>): real {
    if s == [] then 0.0 else Total(s[..|s| - 1]) + s[|s| - 1]
  }

  /** The area of the first v fine vertices that map to a coarse id below k. */
  function AreaBelow(A: seq<real>, toLower: seq<nat>, k: nat, v: nat): real
    requires v <= |A| && v <= |toLower|
  {
    if v == 0 then 0.0
    else AreaBelow(A, toLower, k, v - 1) + (if toLower[v - 1] < k then A[v - 1] else 0.0)
  }

  /** The area of the first v fine vertices that map to coarse id c. */
  function AreaOf(A: seq<real>, toLower: seq<nat>, c: nat, v: nat): real
    requires v <= |A| && v <= |toLower|
  {
    if v == 0 then 0.0
    else AreaOf(A, toLower, c, v - 1) + (if toLower[v - 1] == c then A[v - 1] else 0.0)
  }

  /** The fine vertices of coarse id c are exactly the ones its column names. */
  lemma {:induction false} AreaOfColumn(A: seq<real>, toUpper: seq<Upper>, toLower: seq<nat>, c: nat, v: nat)
    requires IndexMapsInverse(toUpper, toLower, |A|) && |A| < INVALID && c < |toUpper| && v <= |A|
    ensures AreaOf(A, toLower, c, v)
            == (if toUpper[c].first < v then A[toUpper[c].first] else 0.0)
             + (if toUpper[c].second != INVALID && toUpper[c].second < v then A[toUpper[c].second] else 0.0)
  {
    if v > 0 {
      AreaOfColumn(A, toUpper, toLower, c, v - 1);
      var u := v - 1;
      assert toLower[u] == c <==> u == toUpper[c].first || (toUpper[c].second != INVALID && u == toUpper[c].second) by {
        if toLower[u] == c {
          assert toUpper[toLower[u]].first == u || toUpper[toLower[u]].second == u;
        }
      }
    }
  }

  lemma {:induction false} AreaBelowStep(A: seq<real>, toLower: seq<nat>, k: nat, v: nat)
    requires v <= |A| && v <= |toLower|
    ensures AreaBelow(A, toLower, k + 1, v) == AreaBelow(A, toLower, k, v) + AreaOf(A, toLower, k, v)
  {
    if v > 0 {
      AreaBelowStep(A, toLower, k, v - 1);
    }
  }

  lemma {:induction false} AreaBelowNone(A: seq<real>, toLower: seq<nat>, v: nat)
    requires v <= |A| && v <= |toLower|
    ensures AreaBelow(A, toLower, 0, v) == 0.0
  {
    if v > 0 {
      AreaBelowNone(A, toLower, v - 1);
    }
  }

  lemma {:induction false} AreaBelowAll(A: seq<real>, toLower: seq<nat>, k: nat, v: nat)
    requires v <= |A| && v <= |toLower|
    requires forall u :: 0 <= u < v ==> toLower[u] < k
    ensures AreaBelow(A, toLower, k, v) == Total(A[..v])
  {
    if v > 0 {
      AreaBelowAll(A, toLower, k, v - 1);
      assert A[..v][..v - 1] == A[..v - 1];
    }
  }

  /** Coarsening keeps the total surface area: the coarse areas sum to the
      fine areas' sum, since every fine vertex lies in exactly one column. */
  lemma AreaConserved(V: seq<Vec3>, N: seq<Vec3>, A: seq<real>, toUpper: seq<Upper>, toLower: seq<nat>,
                      pool: Pool, Ap: seq<real>)
    requires |N| == |V| && |A| == |V| && |V| < INVALID && IndexMapsInverse(toUpper, toLower, |V|) && |Ap| == |toUpper|
    requires forall c :: 0 <= c < |toUpper| ==> Ap[c] == Pooled(V, N, A, toUpper[c], pool).area
    ensures Total(Ap) == Total(A)
  {
    ColumnsAreParents(toUpper, toLower, |V|);
    AreaBelowNone(A, toLower, |A|);
    for k := 0 to |toUpper|
      invariant Total(Ap[..k]) == AreaBelow(A, toLower, k, |A|)
    {
      assert Ap[..k + 1][..k] == Ap[..k];
      AreaBelowStep(A, toLower, k, |A|);
      AreaOfColumn(A, toUpper, toLower, k, |A|);
    }
    assert Ap[..|toUpper|] == Ap;
    AreaBelowAll(A, toLower, |toUpper|, |A|);
    assert A[..|A|] == A;
  }
}
