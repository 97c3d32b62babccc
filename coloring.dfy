/**
  Greedy graph colouring of one level (generate_graph_coloring_deterministic):
  vertices are visited in a given permuted order and each takes the smallest
  colour that none of its already-coloured neighbours has, a new colour being
  opened only when every existing one is taken; the vertices are then
  bucketed into one phase per colour, in ascending vertex order.

  The specification works on the neighbour lists of the vertices, one list
  per vertex (NeighborLists cuts them out of the packed adjacency).
 */
module Coloring {
  import opened Graph

  // ---------------------------------------------------------------------
  // Specification
  // ---------------------------------------------------------------------

  /** A colouring in progress: col[v] is v's colour, or -1 while v is
      uncoloured (the source's std::vector<int> color(size, -1)); colours
      0 .. k-1 have been opened. */
  datatype Paint = Paint(col: seq<int>, k: nat)

  /** Every link of every list names one of the |g| vertices. */
  ghost predicate Closed(g: seq<seq<Link>>) {
    forall v, l :: 0 <= v < |g| && l in g[v] ==> l.id < |g|
  }

  /** The neighbour list of each of the size vertices. */
  function NeighborLists(adj: Adjacency, size: nat): (g: seq<seq<Link>>)
    requires WellFormed(adj, size)
    ensures |g| == size && Closed(g)
    ensures forall v :: 0 <= v < size ==> g[v] == Neighbors(adj, size, v)
  {
    seq(size, v requires 0 <= v < size => Neighbors(adj, size, v))
  }

  /** The colours of the coloured vertices that `links` point to. */
  function Used(links: seq<Link>, col: seq<int>): set<nat>
    requires forall l :: l in links ==> l.id < |col|
  {
    if links == [] then {}
    else
      var l := links[|links| - 1];
      Used(links[..|links| - 1], col) + (if col[l.id] >= 0 then {col[l.id] as nat} else {})
  }

  /** The smallest colour in j .. k-1 not in `used`, or k when there is none. */
  function FirstFree(used: set<nat>, k: nat, j: nat): (r: nat)
    requires j <= k
    ensures j <= r <= k
    ensures r < k ==> r !in used
    decreases k - j
  {
    if j == k || j !in used then j else FirstFree(used, k, j + 1)
  }

  /** No vertex coloured, no colour opened. */
  function Blank(size: nat): Paint {
    Paint(seq(size, _ => -1), 0)
  }

  /** Colours vertex v (one iteration of src/hierarchy.cpp:230-258). */
  function Step(g: seq<seq<Link>>, p: Paint, v: nat): Paint
    requires Closed(g) && |p.col| == |g| && v < |g|
  {
    var c := FirstFree(Used(g[v], p.col), p.k, 0);
    Paint(p.col[v := c], if c == p.k then p.k + 1 else p.k)
  }

  /** Every entry of perm names one of the size vertices. */
  ghost predicate InRangeSeq(perm: seq<nat>, size: nat) {
    forall t :: 0 <= t < |perm| ==> perm[t] < size
  }

  /** perm lists each of the size vertices once. */
  ghost predicate IsPermutation(perm: seq<nat>, size: nat) {
    && |perm| == size
    && InRangeSeq(perm, size)
    && (forall s, t :: 0 <= s < t < |perm| ==> perm[s] != perm[t])
  }

  /** The colouring after the first i vertices of perm. */
  function FirstFit(g: seq<seq<Link>>, perm: seq<nat>, i: nat): (p: Paint)
    requires Closed(g) && InRangeSeq(perm, |g|) && i <= |perm|
    ensures |p.col| == |g|
  {
    if i == 0 then Blank(|g|) else Step(g, FirstFit(g, perm, i - 1), perm[i - 1])
  }

  /** Every colour is -1 or an opened colour. */
  ghost predicate Painted(p: Paint, size: nat) {
    |p.col| == size && forall v :: 0 <= v < size ==> -1 <= p.col[v] < p.k
  }

  /** Adjacent distinct coloured vertices have different colours. */
  ghost predicate Proper(g: seq<seq<Link>>, col: seq<int>)
    requires Closed(g) && |col| == |g|
  {
    forall u, l :: 0 <= u < |g| && l in g[u] && l.id != u && col[u] >= 0 && col[l.id] >= 0 ==>
      col[u] != col[l.id]
  }

  /** The list of vertex a has a link to b. */
  ghost predicate Lists(g: seq<seq<Link>>, a: nat, b: nat)
    requires a < |g|
  {
    exists l :: l in g[a] && l.id == b
  }

  /** Every link has its reverse link. */
  ghost predicate SymmetricLists(g: seq<seq<Link>>)
    requires Closed(g)
  {
    forall u, v :: 0 <= u < |g| && 0 <= v < |g| && Lists(g, u, v) ==> Lists(g, v, u)
  }

  /** Some vertex has colour c. */
  ghost predicate Held(col: seq<int>, c: int) {
    exists v :: 0 <= v < |col| && col[v] == c
  }

  /** Each opened colour is held by some vertex. */
  ghost predicate AllColorsUsed(p: Paint) {
    forall c :: 0 <= c < p.k ==> Held(p.col, c)
  }

  /** The vertices below n that have colour c, in ascending order. */
  function Members(col: seq<int>, c: int, n: nat): seq<nat>
    requires n <= |col|
  {
    if n == 0 then [] else Members(col, c, n - 1) + (if col[n - 1] == c then [n - 1] else [])
  }

  /** One phase per colour: the phase of colour c holds the vertices below
      n of colour c, ascending. */
  function PhasesUpTo(col: seq<int>, k: nat, n: nat): (r: seq<seq<nat>>)
    requires n <= |col|
    ensures |r| == k
  {
    seq(k, c => Members(col, c, n))
  }

  // ---------------------------------------------------------------------
  // Lemmas about the specification
  // ---------------------------------------------------------------------

  /** The neighbour lists of a symmetric adjacency are symmetric. */
  lemma ListsSymmetric(adj: Adjacency, size: nat)
    requires WellFormed(adj, size) && Symmetric(adj, size)
    ensures SymmetricLists(NeighborLists(adj, size))
  {
    var g := NeighborLists(adj, size);
    forall u, v | 0 <= u < size && 0 <= v < size && Lists(g, u, v) ensures Lists(g, v, u) {
      var l: Link :| l in g[u] && l.id == v;
      assert IsNeighbor(adj, size, u, v);
      var l' :| l' in Neighbors(adj, size, v) && l'.id == u;
      assert l' in g[v];
    }
  }

  /** A colour is in Used exactly when one of the links points to a vertex
      of that colour. */
  lemma {:induction false} UsedMembers(links: seq<Link>, col: seq<int>)
    requires forall l :: l in links ==> l.id < |col|
    ensures forall c: nat :: c in Used(links, col) <==> exists l :: l in links && col[l.id] == c
  {
    if links != [] {
      var init := links[..|links| - 1];
      UsedMembers(init, col);
      assert links == init + [links[|links| - 1]];
      forall c: nat | c in Used(links, col) ensures exists l :: l in links && col[l.id] == c {
        if c in Used(init, col) {
          var l :| l in init && col[l.id] == c;
          assert l in links;
        }
      }
    }
  }

  /** At most one colour per link. */
  lemma {:induction false} UsedCard(links: seq<Link>, col: seq<int>)
    requires forall l :: l in links ==> l.id < |col|
    ensures |Used(links, col)| <= |links|
  {
    if links != [] {
      UsedCard(links[..|links| - 1], col);
    }
  }

  /** FirstFree is the least free colour: every colour from j up to it is
      taken. */
  lemma {:induction false} FirstFreeLeast(used: set<nat>, k: nat, j: nat)
    requires j <= k
    ensures forall c :: j <= c < FirstFree(used, k, j) ==> c in used
    decreases k - j
  {
    if j < k && j in used {
      FirstFreeLeast(used, k, j + 1);
    }
  }

  /** The choice made for v is first fit: no coloured neighbour has the
      chosen colour, every smaller colour is held by a coloured neighbour,
      and a new colour is opened only when every opened one is held by a
      neighbour. */
  lemma StepIsFirstFit(g: seq<seq<Link>>, p: Paint, v: nat)
    requires Closed(g) && Painted(p, |g|) && v < |g|
    ensures Step(g, p, v).col[v] >= 0
    ensures forall l :: l in g[v] && p.col[l.id] >= 0 ==> p.col[l.id] != Step(g, p, v).col[v]
    ensures forall c: nat :: c < Step(g, p, v).col[v] ==> c in Used(g[v], p.col)
    ensures Step(g, p, v).k > p.k ==> forall c: nat :: c < p.k ==> c in Used(g[v], p.col)
    ensures forall c: nat :: c in Used(g[v], p.col) <==> exists l :: l in g[v] && p.col[l.id] == c
  {
    UsedMembers(g[v], p.col);
    FirstFreeLeast(Used(g[v], p.col), p.k, 0);
    var c := FirstFree(Used(g[v], p.col), p.k, 0);
    forall l | l in g[v] && p.col[l.id] >= 0 ensures p.col[l.id] != c {
      if c < p.k {
        assert (p.col[l.id] as nat) in Used(g[v], p.col);
      }
    }
  }

  lemma StepPainted(g: seq<seq<Link>>, p: Paint, v: nat)
    requires Closed(g) && Painted(p, |g|) && v < |g|
    ensures Painted(Step(g, p, v), |g|)
    ensures Step(g, p, v).col[v] >= 0
    ensures p.k <= Step(g, p, v).k <= p.k + 1
  {
  }

  /** After i steps every colour is -1 or opened, exactly the first i
      vertices of perm are coloured, and at most i colours are open. */
  lemma {:induction false} FirstFitPainted(g: seq<seq<Link>>, perm: seq<nat>, i: nat)
    requires Closed(g) && InRangeSeq(perm, |g|) && i <= |perm|
    ensures Painted(FirstFit(g, perm, i), |g|)
    ensures forall v :: 0 <= v < |g| ==> (FirstFit(g, perm, i).col[v] >= 0 <==> v in perm[..i])
    ensures FirstFit(g, perm, i).k <= i
  {
    if i > 0 {
      FirstFitPainted(g, perm, i - 1);
      StepPainted(g, FirstFit(g, perm, i - 1), perm[i - 1]);
      assert perm[..i] == perm[..i - 1] + [perm[i - 1]];
    }
  }

  /** A step opens at most one colour and closes none. */
  lemma StepGrows(g: seq<seq<Link>>, p: Paint, v: nat)
    requires Closed(g) && |p.col| == |g| && v < |g|
    ensures p.k <= Step(g, p, v).k <= p.k + 1
  {
  }

  /** The number of open colours never shrinks. */
  lemma {:induction false} FirstFitGrows(g: seq<seq<Link>>, perm: seq<nat>, i: nat, j: nat)
    requires Closed(g) && InRangeSeq(perm, |g|) && i <= j <= |perm|
    ensures FirstFit(g, perm, i).k <= FirstFit(g, perm, j).k
    decreases j - i
  {
    if i < j {
      FirstFitGrows(g, perm, i, j - 1);
      StepGrows(g, FirstFit(g, perm, j - 1), perm[j - 1]);
    }
  }

  lemma StepProper(g: seq<seq<Link>>, p: Paint, v: nat)
    requires Closed(g) && SymmetricLists(g) && Painted(p, |g|) && v < |g|
    requires Proper(g, p.col)
    ensures Proper(g, Step(g, p, v).col)
  {
    var q := Step(g, p, v);
    StepIsFirstFit(g, p, v);
    forall u, l | 0 <= u < |g| && l in g[u] && l.id != u && q.col[u] >= 0 && q.col[l.id] >= 0
      ensures q.col[u] != q.col[l.id]
    {
      if l.id == v {
        assert Lists(g, u, v);
        var l' :| l' in g[v] && l'.id == u;
      }
    }
  }

  /** On a symmetric graph the colouring stays proper. */
  lemma {:induction false} FirstFitProper(g: seq<seq<Link>>, perm: seq<nat>, i: nat)
    requires Closed(g) && SymmetricLists(g) && InRangeSeq(perm, |g|) && i <= |perm|
    ensures Proper(g, FirstFit(g, perm, i).col)
  {
    if i > 0 {
      FirstFitProper(g, perm, i - 1);
      FirstFitPainted(g, perm, i - 1);
      StepProper(g, FirstFit(g, perm, i - 1), perm[i - 1]);
    }
  }

  /** Colouring a vertex that was still uncoloured keeps every open colour
      held. */
  lemma StepUsesAll(g: seq<seq<Link>>, p: Paint, v: nat)
    requires Closed(g) && Painted(p, |g|) && v < |g| && p.col[v] < 0
    requires AllColorsUsed(p)
    ensures AllColorsUsed(Step(g, p, v))
  {
    StepPainted(g, p, v);
    var q := Step(g, p, v);
    forall c | 0 <= c < q.k ensures Held(q.col, c) {
      if c < p.k {
        assert Held(p.col, c);
        var u :| 0 <= u < |g| && p.col[u] == c;
        assert q.col[u] == c;
      } else {
        assert q.col[v] == c;
      }
    }
  }

  /** With each vertex coloured once, every open colour is held by some
      vertex: no phase is empty. */
  lemma {:induction false} FirstFitUsesAll(g: seq<seq<Link>>, perm: seq<nat>, i: nat)
    requires Closed(g) && IsPermutation(perm, |g|) && i <= |g|
    ensures AllColorsUsed(FirstFit(g, perm, i))
  {
    if i > 0 {
      FirstFitUsesAll(g, perm, i - 1);
      FirstFitPainted(g, perm, i - 1);
      assert perm[i - 1] !in perm[..i - 1];
      StepUsesAll(g, FirstFit(g, perm, i - 1), perm[i - 1]);
    }
  }

  /** A vertex of degree at most D never needs a colour beyond D: a step
      opens a new colour only when every open one is held by a neighbour. */
  lemma StepColorBound(g: seq<seq<Link>>, p: Paint, v: nat, D: nat)
    requires Closed(g) && Painted(p, |g|) && v < |g|
    requires |g[v]| <= D && p.k <= D + 1
    ensures Step(g, p, v).k <= D + 1
  {
    if Step(g, p, v).k > p.k {
      StepIsFirstFit(g, p, v);
      var used := Used(g[v], p.col);
      assert Below(p.k) <= used;
      SubsetCard(Below(p.k), used);
      UsedCard(g[v], p.col);
    }
  }

  /** The greedy bound: with every degree at most D, at most D + 1 colours
      are opened. */
  lemma {:induction false} FirstFitColorBound(g: seq<seq<Link>>, perm: seq<nat>, i: nat, D: nat)
    requires Closed(g) && InRangeSeq(perm, |g|) && i <= |perm|
    requires forall v :: 0 <= v < |g| ==> |g[v]| <= D
    ensures FirstFit(g, perm, i).k <= D + 1
  {
    if i > 0 {
      FirstFitColorBound(g, perm, i - 1, D);
      FirstFitPainted(g, perm, i - 1);
      StepColorBound(g, FirstFit(g, perm, i - 1), perm[i - 1], D);
    }
  }

  /** A permutation of the size vertices names every one of them. */
  lemma PermutationCovers(perm: seq<nat>, size: nat)
    requires IsPermutation(perm, size)
    ensures forall v :: 0 <= v < size ==> v in perm
  {
    var s := set t | 0 <= t < size :: perm[t];
    DistinctCard(perm, size);
    assert s <= Below(size);
    SubsetCardEq(s, Below(size));
    forall v | 0 <= v < size ensures v in perm {
      assert v in s;
    }
  }

  lemma {:induction false} DistinctCard(perm: seq<nat>, i: nat)
    requires i <= |perm| && forall s, t :: 0 <= s < t < |perm| ==> perm[s] != perm[t]
    ensures |set t | 0 <= t < i :: perm[t]| == i
  {
    if i > 0 {
      DistinctCard(perm, i - 1);
      var prev := set t | 0 <= t < i - 1 :: perm[t];
      assert (set t | 0 <= t < i :: perm[t]) == prev + {perm[i - 1]};
      assert perm[i - 1] !in prev;
    }
  }

  /** Members lists exactly the vertices of colour c below n, ascending. */
  lemma {:induction false} MembersSpec(col: seq<int>, c: int, n: nat)
    requires n <= |col|
    ensures forall v: nat :: v in Members(col, c, n) <==> v < n && col[v] == c
    ensures forall a, b :: 0 <= a < b < |Members(col, c, n)| ==> Members(col, c, n)[a] < Members(col, c, n)[b]
  {
    if n > 0 {
      MembersSpec(col, c, n - 1);
      var prev := Members(col, c, n - 1);
      assert forall a :: 0 <= a < |prev| ==> prev[a] in prev;
    }
  }

  /** The phases partition the vertices by colour: each phase is ascending,
      vertex v lies in phase c exactly when v has colour c, and, when every
      colour is held by some vertex, no phase is empty. */
  lemma PhasesPartition(col: seq<int>, k: nat)
    requires forall v :: 0 <= v < |col| ==> 0 <= col[v] < k
    ensures forall c, v: nat :: 0 <= c < k ==> (v in PhasesUpTo(col, k, |col|)[c] <==> v < |col| && col[v] == c)
    ensures forall c, a, b :: 0 <= c < k && 0 <= a < b < |PhasesUpTo(col, k, |col|)[c]| ==>
              PhasesUpTo(col, k, |col|)[c][a] < PhasesUpTo(col, k, |col|)[c][b]
    ensures AllColorsUsed(Paint(col, k)) ==> forall c :: 0 <= c < k ==> |PhasesUpTo(col, k, |col|)[c]| > 0
  {
    var phases := PhasesUpTo(col, k, |col|);
    forall c | 0 <= c < k
      ensures forall v: nat :: v in phases[c] <==> v < |col| && col[v] == c
      ensures forall a, b :: 0 <= a < b < |phases[c]| ==> phases[c][a] < phases[c][b]
      ensures Held(col, c) ==> |phases[c]| > 0
    {
      MembersSpec(col, c, |col|);
      assert phases[c] == Members(col, c, |col|);
      if Held(col, c) {
        var v: nat :| v < |col| && col[v] == c;
        assert v in phases[c];
      }
    }
  }

  /** Adding vertex n to the phase of its colour gives the phases below n+1. */
  lemma PhasesStep(col: seq<int>, k: nat, n: nat)
    requires n < |col| && 0 <= col[n] < k
    ensures PhasesUpTo(col, k, n + 1) == PhasesUpTo(col, k, n)[col[n] := PhasesUpTo(col, k, n)[col[n]] + [n]]
  {
    var before, after := PhasesUpTo(col, k, n), PhasesUpTo(col, k, n + 1);
    forall c | 0 <= c < k ensures after[c] == before[col[n] := before[col[n]] + [n]][c] {
      assert after[c] == Members(col, c, n + 1);
    }
  }

  // ---------------------------------------------------------------------
  // The colouring as the source runs it
  // ---------------------------------------------------------------------

  /** Refills possible_colors and strikes out the colours of v's coloured
      neighbours (src/hierarchy.cpp:234-240). */
  method MarkUsed(adj: Adjacency, size: nat, col: seq<int>, possible: seq<bool>, v: nat) returns (marked: seq<bool>)
    requires WellFormed(adj, size) && |col| == size && v < size
    requires forall u :: 0 <= u < size ==> col[u] < |possible|
    ensures |marked| == |possible|
    ensures forall j :: 0 <= j < |marked| ==> (marked[j] <==> j !in Used(Neighbors(adj, size, v), col))
  {
    marked := seq(|possible|, _ => true);
    var t := adj.offsets[v];
    while t < adj.offsets[v + 1]
      invariant adj.offsets[v] <= t <= adj.offsets[v + 1]
      invariant |marked| == |possible|
      invariant forall j :: 0 <= j < |marked| ==>
                  (marked[j] <==> j !in Used(adj.links[adj.offsets[v]..t], col))
    {
      var c := col[adj.links[t].id];
      if c >= 0 {
        marked := marked[c := false];
      }
      assert adj.links[adj.offsets[v]..t + 1][..t - adj.offsets[v]] == adj.links[adj.offsets[v]..t];
      t := t + 1;
    }
  }

  /** The first possible colour, or -1 (src/hierarchy.cpp:242-248). */
  method FirstPossible(possible: seq<bool>) returns (chosen: int)
    ensures -1 <= chosen < |possible|
    ensures chosen >= 0 ==> possible[chosen]
    ensures forall j :: 0 <= j < |possible| && (chosen < 0 || j < chosen) ==> !possible[j]
  {
    chosen := -1;
    var j := 0;
    while j < |possible|
      invariant 0 <= j <= |possible|
      invariant forall j' :: 0 <= j' < j ==> !possible[j']
    {
      if possible[j] {
        chosen := j;
        return;
      }
      j := j + 1;
    }
  }

  /** FirstFree is the only colour that is free with every smaller one taken. */
  lemma FirstFreeUnique(used: set<nat>, k: nat, j: nat)
    requires j <= k && (j == k || j !in used) && forall c :: 0 <= c < j ==> c in used
    ensures FirstFree(used, k, 0) == j
  {
    FirstFreeLeast(used, k, 0);
  }

  /** One iteration of the colouring loop (src/hierarchy.cpp:230-258):
      strike out the neighbours' colours, take the first possible one, or
      open a new colour when none is possible. */
  method ColorVertex(adj: Adjacency, size: nat, ghost g: seq<seq<Link>>, color: array<int>, possible: seq<bool>, k: nat, v: nat)
      returns (possible': seq<bool>, k': nat)
    requires WellFormed(adj, size) && color.Length == size && v < size
    requires Closed(g) && |g| == size && g[v] == Neighbors(adj, size, v)
    requires Painted(Paint(color[..], k), size) && |possible| == k
    modifies color
    ensures Paint(color[..], k') == Step(g, Paint(old(color[..]), k), v)
    ensures |possible'| == k'
  {
    ghost var used := Used(g[v], color[..]);
    possible' := MarkUsed(adj, size, color[..], possible, v);
    var chosen := FirstPossible(possible');
    k' := k;
    if chosen < 0 {
      FirstFreeUnique(used, k, k);
      chosen := k;
      k' := k + 1;
      possible' := possible' + [false];
    } else {
      FirstFreeUnique(used, k, chosen);
    }
    color[v] := chosen;
  }

  /** generate_graph_coloring_deterministic (src/hierarchy.cpp:210-267)
      with the shuffled order perm given: the colouring is FirstFit's, and
      the phases are its buckets. */
  method ColorGraphDeterministic(adj: Adjacency, size: nat, perm: seq<nat>) returns (phases: seq<seq<nat>>)
    requires WellFormed(adj, size) && IsPermutation(perm, size)
    ensures var p := FirstFit(NeighborLists(adj, size), perm, size);
            phases == PhasesUpTo(p.col, p.k, size)
  {
    ghost var g := NeighborLists(adj, size);
    var color := new int[size](_ => -1);
    assert color[..] == Blank(size).col;
    var possible: seq<bool> := [];
    var ncolors := 0;
    for i := 0 to size
      invariant color[..] == FirstFit(g, perm, i).col && ncolors == FirstFit(g, perm, i).k
      invariant |possible| == ncolors
    {
      FirstFitPainted(g, perm, i);
      possible, ncolors := ColorVertex(adj, size, g, color, possible, ncolors, perm[i]);
    }
    FirstFitPainted(g, perm, size);
    PermutationCovers(perm, size);
    assert perm[..size] == perm;
    phases := BucketByColor(color[..], ncolors);
  }

  /** phases.resize(ncolors) and one push_back per vertex into the phase of
      its colour (src/hierarchy.cpp:259-263, 380-385). */
  method BucketByColor(col: seq<int>, k: nat) returns (phases: seq<seq<nat>>)
    requires forall v :: 0 <= v < |col| ==> 0 <= col[v] < k
    ensures phases == PhasesUpTo(col, k, |col|)
  {
    phases := seq(k, _ => []);
    for v := 0 to |col|
      invariant phases == PhasesUpTo(col, k, v)
    {
      PhasesStep(col, k, v);
      phases := phases[col[v] := phases[col[v]] + [v]];
    }
  }

  /** Phases of a proper colouring whose colours are all held: they
      partition the vertices by colour, each is ascending and non-empty,
      and no two adjacent distinct vertices share a phase. */
  ghost predicate PhasesOf(adj: Adjacency, size: nat, col: seq<int>, phases: seq<seq<nat>>)
    requires WellFormed(adj, size)
  {
    && |col| == size
    && (forall v :: 0 <= v < size ==> 0 <= col[v] < |phases| && v in phases[col[v]])
    && (forall c, c', v :: 0 <= c < c' < |phases| && v in phases[c] ==> v !in phases[c'])
    && (forall c :: 0 <= c < |phases| ==> |phases[c]| > 0)
    && (forall c, a, b :: 0 <= c < |phases| && 0 <= a < b < |phases[c]| ==> phases[c][a] < phases[c][b])
    && (forall c, u: nat, l :: 0 <= c < |phases| && u < size && u in phases[c] && l in Neighbors(adj, size, u) && l.id != u ==>
          l.id !in phases[c])
  }

  /** Bucketing a proper colouring that holds every colour gives phases
      with all the properties above. */
  lemma BucketsArePhases(adj: Adjacency, size: nat, col: seq<int>, k: nat)
    requires WellFormed(adj, size) && |col| == size && Proper(NeighborLists(adj, size), col)
    requires forall v :: 0 <= v < size ==> 0 <= col[v] < k
    requires AllColorsUsed(Paint(col, k))
    ensures PhasesOf(adj, size, col, PhasesUpTo(col, k, size))
  {
    var phases := PhasesUpTo(col, k, |col|);
    var g := NeighborLists(adj, size);
    PhasesPartition(col, k);
    forall v | 0 <= v < size ensures v in phases[col[v]] {
    }
    forall c, c', v: nat | 0 <= c < c' < k && v in phases[c] ensures v !in phases[c'] {
      MembersSpec(col, c, |col|);
      assert v in Members(col, c, |col|);
    }
    forall c, u: nat, l | 0 <= c < k && u < size && u in phases[c] && l in Neighbors(adj, size, u) && l.id != u
      ensures l.id !in phases[c]
    {
      assert col[u] == c;
      assert l in g[u];
      assert col[u] != col[l.id];
    }
  }

  /** What the deterministic colouring delivers on a symmetric graph whose
      degrees are at most D: phases as above, at most D + 1 of them. */
  lemma DeterministicPhases(adj: Adjacency, size: nat, perm: seq<nat>, D: nat)
    requires WellFormed(adj, size) && Symmetric(adj, size) && IsPermutation(perm, size)
    requires forall v :: 0 <= v < size ==> |Neighbors(adj, size, v)| <= D
    ensures var p := FirstFit(NeighborLists(adj, size), perm, size);
            var phases := PhasesUpTo(p.col, p.k, size);
            |phases| <= D + 1 && PhasesOf(adj, size, p.col, phases)
  {
    var g := NeighborLists(adj, size);
    var p := FirstFit(g, perm, size);
    ListsSymmetric(adj, size);
    FirstFitPainted(g, perm, size);
    PermutationCovers(perm, size);
    assert perm[..size] == perm;
    FirstFitProper(g, perm, size);
    FirstFitUsesAll(g, perm, size);
    FirstFitColorBound(g, perm, size, D);
    BucketsArePhases(adj, size, p.col, p.k);
  }
}
