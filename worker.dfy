/**
  generate_graph_coloring, the concurrent colouring, modelled as one worker
  that runs the whole vertex range on its own: 8-bit colours with 0xFF for
  "uncoloured", a per-worker ColorData that counts the vertices of each
  colour and is widened when a neighbour already holds a colour the worker
  has not opened, the cap of 254 colours, the random swaps that build the
  visiting order, and the merge that parallel_reduce applies to two
  workers' ColorData.
 */
module ParallelColoring {
  import opened Graph
  import opened Coloring
  import opened Outcomes

  newtype uint8 = x: int | 0 <= x < 256

  /** The "no colour" byte. */
  const INVALID_COLOR: uint8 := 0xFF

  /** Colours 0 .. MAX_COLORS-1 can be opened: a worker that needs a new
      colour while nColors == INVALID_COLOR - 1 gives up. */
  const MAX_COLORS: nat := 254

  /** The runtime_error thrown when a 255th colour would be needed ("Ran
      out of colors during graph coloring!"). */
  datatype Fault = OutOfColors

  /** A worker's tally: nColors opened colours and, for each, how many
      vertices took it (nNodes[0 .. nColors-1] of the source's array). */
  datatype ColorData = ColorData(nColors: nat, nNodes: seq<nat>)

  /** The colour bytes of all vertices together with a worker's tally. */
  datatype Sheet = Sheet(col: seq<uint8>, data: ColorData)

  /** The tally has one count per opened colour. */
  ghost predicate Sized(d: ColorData) {
    |d.nNodes| == d.nColors
  }

  /** A colour byte read as a colour of the specification, -1 for none. */
  function Shade(c: uint8): int {
    if c == INVALID_COLOR then -1 else c as int
  }

  function Shades(col: seq<uint8>): (r: seq<int>)
    ensures |r| == |col| && forall v :: 0 <= v < |col| ==> r[v] == Shade(col[v])
  {
    seq(|col|, v requires 0 <= v < |col| => Shade(col[v]))
  }

  /** What holds between the vertices a worker colours: every byte is
      "none" or a colour below the cap, and the tally is sized and within
      the cap. */
  ghost predicate Fits(s: Sheet, size: nat) {
    && |s.col| == size
    && Sized(s.data) && s.data.nColors <= MAX_COLORS
    && forall u :: 0 <= u < size ==> s.col[u] == INVALID_COLOR || (s.col[u] as int) < MAX_COLORS
  }

  /** nColors after the widening loop over the links
      (src/hierarchy.cpp:332-342): raised to one past every colour a
      neighbour already has. */
  function Reach(links: seq<Link>, col: seq<uint8>, n: nat): (r: nat)
    requires forall l :: l in links ==> l.id < |col|
    ensures n <= r
    ensures n <= MAX_COLORS && (forall l :: l in links ==> col[l.id] == INVALID_COLOR || (col[l.id] as nat) < MAX_COLORS)
            ==> r <= MAX_COLORS
  {
    if links == [] then n
    else
      var m := Reach(links[..|links| - 1], col, n);
      var c := col[links[|links| - 1].id];
      assert forall l :: l in links[..|links| - 1] ==> l in links;
      if c != INVALID_COLOR && c as nat >= m then c as nat + 1 else m
  }

  /** The colours the links point at, read off the colour bytes: the
      possible_colors entries the widening loop strikes out. */
  function Struck(links: seq<Link>, col: seq<uint8>): set<nat>
    requires forall l :: l in links ==> l.id < |col|
  {
    if links == [] then {}
    else
      var c := col[links[|links| - 1].id];
      assert forall l :: l in links[..|links| - 1] ==> l in links;
      Struck(links[..|links| - 1], col) + (if c != INVALID_COLOR then {c as nat} else {})
  }

  /** One vertex as the worker colours it (src/hierarchy.cpp:320-360):
      widen the tally to the neighbours' colours, take the first colour no
      neighbour holds, or open a new one, failing when 254 are open. */
  function WorkerStep(g: seq<seq<Link>>, s: Sheet, v: nat): (r: Result<Sheet, Fault>)
    requires Closed(g) && Fits(s, |g|) && v < |g|
    ensures r.Success? ==> Fits(r.value, |g|) && r.value.col[v] != INVALID_COLOR
  {
    var k := Reach(g[v], s.col, s.data.nColors);
    var nodes := s.data.nNodes + seq(k - s.data.nColors, _ => 0);
    var c := FirstFree(Struck(g[v], s.col), k, 0);
    if c < k then
      Success(Sheet(s.col[v := c as uint8], ColorData(k, nodes[c := nodes[c] + 1])))
    else if k == MAX_COLORS then
      Failure(OutOfColors)
    else
      Success(Sheet(s.col[v := k as uint8], ColorData(k + 1, nodes + [1])))
  }

  /** The number of vertices of each colour 0 .. k-1. */
  function Tallies(col: seq<int>, k: nat): (r: seq<nat>)
    ensures |r| == k
  {
    seq(k, c => |Members(col, c, |col|)|)
  }

  /** The worker's sheet shows the colouring p: the same colours, the same
      number of open colours, and the tally counts the vertices of each. */
  ghost predicate Mirrors(s: Sheet, p: Paint) {
    Shades(s.col) == p.col && s.data.nColors == p.k && s.data.nNodes == Tallies(p.col, p.k)
  }

  // ---------------------------------------------------------------------
  // The worker computes the deterministic colouring
  // ---------------------------------------------------------------------

  /** Reach is the least bound: a bound B >= n above every neighbour's
      colour is at least Reach. */
  lemma {:induction false} ReachLeast(links: seq<Link>, col: seq<uint8>, n: nat, B: nat)
    requires forall l :: l in links ==> l.id < |col|
    requires n <= B && forall l :: l in links && col[l.id] != INVALID_COLOR ==> (col[l.id] as nat) < B
    ensures Reach(links, col, n) <= B
  {
    if links != [] {
      assert forall l :: l in links[..|links| - 1] ==> l in links;
      ReachLeast(links[..|links| - 1], col, n, B);
    }
  }

  /** Recolouring an uncoloured vertex v with c adds one vertex to the
      count of c and leaves every other count alone. */
  lemma {:induction false} MembersRecolor(col: seq<int>, v: nat, c: int, d: int, n: nat)
    requires n <= |col| && v < |col| && col[v] < 0 && 0 <= c && 0 <= d
    ensures |Members(col[v := c], d, n)| == |Members(col, d, n)| + (if v < n && d == c then 1 else 0)
  {
    if n > 0 {
      MembersRecolor(col, v, c, d, n - 1);
    }
  }

  /** A colour nobody holds has no members. */
  lemma {:induction false} MembersOfUnheld(col: seq<int>, d: int, n: nat)
    requires n <= |col| && forall u :: 0 <= u < n ==> col[u] != d
    ensures Members(col, d, n) == []
  {
    if n > 0 {
      MembersOfUnheld(col, d, n - 1);
    }
  }

  /** The tally after colouring uncoloured vertex v with colour c < k. */
  lemma TalliesRecolor(col: seq<int>, k: nat, v: nat, c: nat)
    requires v < |col| && col[v] < 0 && c < k
    ensures Tallies(col[v := c], k) == Tallies(col, k)[c := Tallies(col, k)[c] + 1]
  {
    var after, before := Tallies(col[v := c], k), Tallies(col, k);
    forall d | 0 <= d < k ensures after[d] == before[c := before[c] + 1][d] {
      MembersRecolor(col, v, c, d, |col|);
    }
  }

  /** The tally after colouring uncoloured vertex v with the new colour k,
      which nobody held. */
  lemma TalliesOpen(col: seq<int>, k: nat, v: nat)
    requires v < |col| && col[v] < 0 && forall u :: 0 <= u < |col| ==> col[u] < k
    ensures Tallies(col[v := k], k + 1) == Tallies(col, k) + [1]
  {
    var col' := col[v := k];
    forall d | 0 <= d < k ensures Tallies(col', k + 1)[d] == Tallies(col, k)[d] {
      MembersRecolor(col, v, k, d, |col|);
    }
    MembersRecolor(col, v, k, k, |col|);
    MembersOfUnheld(col, k, |col|);
  }

  /** The struck colours are the colours the specification's Used reads. */
  lemma {:induction false} StruckIsUsed(links: seq<Link>, col: seq<uint8>)
    requires forall l :: l in links ==> l.id < |col|
    ensures Struck(links, col) == Used(links, Shades(col))
  {
    if links != [] {
      assert forall l :: l in links[..|links| - 1] ==> l in links;
      StruckIsUsed(links[..|links| - 1], col);
    }
  }

  /** One worker step on a sheet that mirrors a partial colouring p, for a
      vertex p has not coloured yet, mirrors the deterministic Step, and it
      fails exactly when that Step would open a 255th colour. */
  lemma StepMirrors(g: seq<seq<Link>>, s: Sheet, p: Paint, v: nat)
    requires Closed(g) && Fits(s, |g|) && Painted(p, |g|) && Mirrors(s, p) && v < |g| && p.col[v] < 0
    ensures WorkerStep(g, s, v).Success? <==> Step(g, p, v).k <= MAX_COLORS
    ensures WorkerStep(g, s, v).Success? ==> Mirrors(WorkerStep(g, s, v).value, Step(g, p, v))
  {
    var k := s.data.nColors;
    assert Reach(g[v], s.col, k) == k by {
      forall l | l in g[v] && s.col[l.id] != INVALID_COLOR ensures (s.col[l.id] as nat) < k {
        assert Shade(s.col[l.id]) == p.col[l.id];
      }
      ReachLeast(g[v], s.col, k, k);
    }
    StruckIsUsed(g[v], s.col);
    var c := FirstFree(Used(g[v], p.col), k, 0);
    if c < k {
      RecolorMirrors(s, p, v, c);
    } else if k < MAX_COLORS {
      OpenMirrors(s, p, v);
    }
  }

  /** Giving uncoloured vertex v the open colour c keeps the mirror. */
  lemma RecolorMirrors(s: Sheet, p: Paint, v: nat, c: nat)
    requires Mirrors(s, p) && Sized(s.data) && v < |p.col| && p.col[v] < 0 && c < p.k && c < 255
    ensures Mirrors(Sheet(s.col[v := c as uint8], ColorData(p.k, s.data.nNodes[c := s.data.nNodes[c] + 1])), Paint(p.col[v := c], p.k))
  {
    TalliesRecolor(p.col, p.k, v, c);
    assert Shades(s.col[v := c as uint8]) == p.col[v := c];
  }

  /** Giving uncoloured vertex v the new colour k keeps the mirror. */
  lemma OpenMirrors(s: Sheet, p: Paint, v: nat)
    requires Mirrors(s, p) && Sized(s.data) && v < |p.col| && p.col[v] < 0 && p.k < 255
    requires forall u :: 0 <= u < |p.col| ==> p.col[u] < p.k
    ensures Mirrors(Sheet(s.col[v := p.k as uint8], ColorData(p.k + 1, s.data.nNodes + [1])), Paint(p.col[v := p.k], p.k + 1))
  {
    TalliesOpen(p.col, p.k, v);
    assert Shades(s.col[v := p.k as uint8]) == p.col[v := p.k];
  }

  /** A permutation has not visited its i-th vertex before position i. */
  lemma NotYetVisited(perm: seq<nat>, size: nat, i: nat)
    requires IsPermutation(perm, size) && i < size
    ensures perm[i] !in perm[..i]
  {
  }

  // ---------------------------------------------------------------------
  // The worker, step by step
  // ---------------------------------------------------------------------

  /** Every colour a link points at lies below Reach. */
  lemma {:induction false} UsedBelowReach(links: seq<Link>, col: seq<uint8>, n: nat)
    requires forall l :: l in links ==> l.id < |col|
    ensures forall x :: x in Struck(links, col) ==> x < Reach(links, col, n)
  {
    if links != [] {
      assert forall l :: l in links[..|links| - 1] ==> l in links;
      UsedBelowReach(links[..|links| - 1], col, n);
    }
  }

  /** Reach and Used over one more link. */
  lemma ReachUsedSnoc(prefix: seq<Link>, l: Link, col: seq<uint8>, n: nat)
    requires forall l' :: l' in prefix ==> l'.id < |col|
    requires l.id < |col|
    ensures var c := col[l.id];
            Reach(prefix + [l], col, n) == if c != INVALID_COLOR && c as nat >= Reach(prefix, col, n) then c as nat + 1 else Reach(prefix, col, n)
    ensures Struck(prefix + [l], col) == Struck(prefix, col) + (if col[l.id] != INVALID_COLOR then {col[l.id] as nat} else {})
  {
    assert (prefix + [l])[..|prefix|] == prefix;
  }

  /** One link of the widening loop (src/hierarchy.cpp:333-341): a
      neighbour's colour at or past nColors opens every colour up to it, as
      possible and with no vertices, and the neighbour's colour is struck
      out. */
  method Strike(color: array<uint8>, possible: array<bool>, ghost prefix: seq<Link>, l: Link,
                d: ColorData, n: nat, nodes: seq<nat>) returns (n': nat, nodes': seq<nat>)
    requires possible.Length == 256 && Fits(Sheet(color[..], d), color.Length)
    requires (forall l' :: l' in prefix ==> l'.id < color.Length) && l.id < color.Length
    requires n == Reach(prefix, color[..], d.nColors) && n <= MAX_COLORS
    requires nodes == d.nNodes + seq(n - d.nColors, _ => 0)
    requires forall j :: 0 <= j < n ==> (possible[j] <==> j !in Struck(prefix, color[..]))
    modifies possible
    ensures n' == Reach(prefix + [l], color[..], d.nColors) && n' <= MAX_COLORS
    ensures nodes' == d.nNodes + seq(n' - d.nColors, _ => 0)
    ensures forall j :: 0 <= j < n' ==> (possible[j] <==> j !in Struck(prefix + [l], color[..]))
  {
    ghost var col := color[..];
    UsedBelowReach(prefix, col, d.nColors);
    ReachUsedSnoc(prefix, l, col, d.nColors);
    n', nodes' := n, nodes;
    var c := color[l.id];
    if c != INVALID_COLOR {
      while c as int >= n'
        invariant n <= n' <= MAX_COLORS
        invariant n' == n || n' <= c as int + 1
        invariant nodes' == d.nNodes + seq(n' - d.nColors, _ => 0)
        invariant forall j :: 0 <= j < n' ==> (possible[j] <==> j !in Struck(prefix, col))
        modifies possible
      {
        possible[n'] := true;
        nodes' := nodes' + [0];
        n' := n' + 1;
      }
      possible[c] := false;
    }
  }

  /** One vertex of the worker loop (src/hierarchy.cpp:320-363): mark the
      open colours possible, widen the tally to every colour a neighbour
      holds and strike that colour out, then take the first possible
      colour or open a new one, throwing when 254 are open. */
  method ColorOne(adj: Adjacency, size: nat, ghost g: seq<seq<Link>>, color: array<uint8>, possible: array<bool>,
                  d: ColorData, v: nat) returns (r: Result<ColorData, Fault>)
    requires WellFormed(adj, size) && color.Length == size && possible.Length == 256 && v < size
    requires Closed(g) && |g| == size && g[v] == Neighbors(adj, size, v)
    requires Fits(Sheet(color[..], d), size)
    modifies color, possible
    ensures r.Success? <==> WorkerStep(g, Sheet(old(color[..]), d), v).Success?
    ensures r.Success? ==> WorkerStep(g, Sheet(old(color[..]), d), v).value == Sheet(color[..], r.value)
    ensures r.Failure? ==> color[..] == old(color[..])
  {
    var n, nodes := Scan(adj, size, color, possible, d, v);
    r := Choose(g, color, possible, d, n, nodes, v);
  }

  /** std::fill of possible_colors[0 .. n-1] with true. */
  method Allow(possible: array<bool>, n: nat)
    requires n <= possible.Length
    modifies possible
    ensures forall j :: 0 <= j < n ==> possible[j]
  {
    for j := 0 to n
      invariant forall j' :: 0 <= j' < j ==> possible[j']
    {
      possible[j] := true;
    }
  }

  /** The first half of one vertex (src/hierarchy.cpp:330-342): the open
      colours marked possible, then the widening loop over v's links. */
  method Scan(adj: Adjacency, size: nat, color: array<uint8>, possible: array<bool>, d: ColorData, v: nat)
      returns (n: nat, nodes: seq<nat>)
    requires WellFormed(adj, size) && color.Length == size && possible.Length == 256 && v < size
    requires Fits(Sheet(color[..], d), size)
    modifies possible
    ensures n == Reach(Neighbors(adj, size, v), color[..], d.nColors) && n <= MAX_COLORS
    ensures nodes == d.nNodes + seq(n - d.nColors, _ => 0)
    ensures forall j :: 0 <= j < n ==> (possible[j] <==> j !in Struck(Neighbors(adj, size, v), color[..]))
  {
    ghost var col := color[..];
    n := d.nColors;
    nodes := d.nNodes;
    Allow(possible, n);
    var t := adj.offsets[v];
    while t < adj.offsets[v + 1]
      invariant adj.offsets[v] <= t <= adj.offsets[v + 1]
      invariant n == Reach(adj.links[adj.offsets[v]..t], col, d.nColors) && n <= MAX_COLORS
      invariant nodes == d.nNodes + seq(n - d.nColors, _ => 0)
      invariant forall j :: 0 <= j < n ==> (possible[j] <==> j !in Struck(adj.links[adj.offsets[v]..t], col))
      modifies possible
    {
      assert adj.links[adj.offsets[v]..t + 1] == adj.links[adj.offsets[v]..t] + [adj.links[t]];
      n, nodes := Strike(color, possible, adj.links[adj.offsets[v]..t], adj.links[t], d, n, nodes);
      t := t + 1;
    }
  }

  /** The choice after the widening loop (src/hierarchy.cpp:344-360): the
      first possible colour, else a new colour, else the out-of-colours
      error when 254 are open. */
  method Choose(ghost g: seq<seq<Link>>, color: array<uint8>, possible: array<bool>,
                d: ColorData, n: nat, nodes: seq<nat>, v: nat) returns (r: Result<ColorData, Fault>)
    requires Closed(g) && |g| == color.Length && v < |g| && possible.Length == 256
    requires Fits(Sheet(color[..], d), |g|)
    requires n == Reach(g[v], color[..], d.nColors) && n <= MAX_COLORS
    requires nodes == d.nNodes + seq(n - d.nColors, _ => 0)
    requires forall j :: 0 <= j < n ==> (possible[j] <==> j !in Struck(g[v], color[..]))
    modifies color
    ensures r.Success? <==> WorkerStep(g, Sheet(old(color[..]), d), v).Success?
    ensures r.Success? ==> WorkerStep(g, Sheet(old(color[..]), d), v).value == Sheet(color[..], r.value)
    ensures r.Failure? ==> color[..] == old(color[..])
  {
    ghost var used := Struck(g[v], color[..]);
    var chosen := FirstPossible(possible[..n]);
    var n', nodes' := n, nodes;
    if chosen < 0 {
      FirstFreeUnique(used, n, n);
      if n == MAX_COLORS {
        return Failure(OutOfColors);
      }
      nodes' := nodes + [1];
      color[v] := n as uint8;
      n' := n + 1;
    } else {
      FirstFreeUnique(used, n, chosen);
      nodes' := nodes[chosen := nodes[chosen] + 1];
      color[v] := chosen as uint8;
    }
    r := Success(ColorData(n', nodes'));
  }

  /** One iteration of the worker's loop, on a tally and colour array
      that show the greedy colouring of the first pidx vertices of perm. */
  method Advance(adj: Adjacency, size: nat, ghost g: seq<seq<Link>>, color: array<uint8>, possible: array<bool>,
                 data: ColorData, perm: seq<nat>, pidx: nat, hi: nat) returns (r: Result<ColorData, Fault>)
    requires WellFormed(adj, size) && color.Length == size && possible.Length == 256
    requires Closed(g) && |g| == size && forall v :: 0 <= v < size ==> g[v] == Neighbors(adj, size, v)
    requires InRangeSeq(perm, size) && |perm| == size && pidx < hi <= size && perm[pidx] !in perm[..pidx]
    requires Fits(Sheet(color[..], data), size) && Mirrors(Sheet(color[..], data), FirstFit(g, perm, pidx))
    modifies color, possible
    ensures r.Success? <==> FirstFit(g, perm, pidx + 1).k <= MAX_COLORS
    ensures r.Success? ==> Fits(Sheet(color[..], r.value), size) && Mirrors(Sheet(color[..], r.value), FirstFit(g, perm, pidx + 1))
    ensures r.Failure? ==> FirstFit(g, perm, hi).k > MAX_COLORS
  {
    ghost var before := Sheet(color[..], data);
    FirstFitPainted(g, perm, pidx);
    StepMirrors(g, before, FirstFit(g, perm, pidx), perm[pidx]);
    r := ColorOne(adj, size, g, color, possible, data, perm[pidx]);
    FirstFitGrows(g, perm, pidx + 1, hi);
  }

  /** The worker lambda of parallel_reduce (src/hierarchy.cpp:315-367) over
      the positions lo .. hi-1 of perm, on a tally and colour array that
      show the greedy colouring of the positions before lo: it succeeds
      exactly when the greedy colouring of the first hi positions needs at
      most 254 colours, and then shows that colouring. */
  method ColorRange(adj: Adjacency, size: nat, ghost g: seq<seq<Link>>, perm: seq<nat>, lo: nat, hi: nat,
                    color: array<uint8>, d: ColorData) returns (r: Result<ColorData, Fault>)
    requires WellFormed(adj, size) && color.Length == size
    requires Closed(g) && |g| == size && forall v :: 0 <= v < size ==> g[v] == Neighbors(adj, size, v)
    requires IsPermutation(perm, size) && lo <= hi <= size
    requires Fits(Sheet(color[..], d), size) && Mirrors(Sheet(color[..], d), FirstFit(g, perm, lo))
    modifies color
    ensures r.Success? <==> FirstFit(g, perm, hi).k <= MAX_COLORS
    ensures r.Success? ==> Mirrors(Sheet(color[..], r.value), FirstFit(g, perm, hi))
  {
    var possible := new bool[256];
    var data := d;
    for pidx := lo to hi
      invariant Fits(Sheet(color[..], data), size) && Mirrors(Sheet(color[..], data), FirstFit(g, perm, pidx))
    {
      NotYetVisited(perm, size, pidx);
      var step := Advance(adj, size, g, color, possible, data, perm, pidx, hi);
      if step.Failure? {
        return step;
      }
      data := step.value;
    }
    r := Success(data);
  }

  // ---------------------------------------------------------------------
  // The reduction's join
  // ---------------------------------------------------------------------

  /** The count of colour i in d, zero past its open colours. */
  function Count(d: ColorData, i: nat): nat
    requires Sized(d)
  {
    if i < d.nColors then d.nNodes[i] else 0
  }

  /** The join of two tallies: as many colours as the larger one, each
      counted in both. */
  function Merged(c1: ColorData, c2: ColorData): (r: ColorData)
    requires Sized(c1) && Sized(c2)
    ensures Sized(r) && c1.nColors <= r.nColors && c2.nColors <= r.nColors
    ensures r.nColors == c1.nColors || r.nColors == c2.nColors
  {
    var m := if c1.nColors < c2.nColors then c2.nColors else c1.nColors;
    ColorData(m, seq(m, i requires 0 <= i => Count(c1, i) + Count(c2, i)))
  }

  /** The join lambda (src/hierarchy.cpp:368-377): the larger nColors, the
      counts zeroed, then c1's and c2's counts added in. */
  method Merge(c1: ColorData, c2: ColorData) returns (r: ColorData)
    requires Sized(c1) && Sized(c2)
    ensures r == Merged(c1, c2)
  {
    var m := if c1.nColors < c2.nColors then c2.nColors else c1.nColors;
    var nodes := new nat[m];
    for i := 0 to m
      invariant forall j :: 0 <= j < i ==> nodes[j] == 0
    {
      nodes[i] := 0;
    }
    for i := 0 to c1.nColors
      invariant forall j :: 0 <= j < m ==> nodes[j] == (if j < i then c1.nNodes[j] else 0)
    {
      nodes[i] := nodes[i] + c1.nNodes[i];
    }
    for i := 0 to c2.nColors
      invariant forall j :: 0 <= j < m ==> nodes[j] == Count(c1, j) + (if j < i then c2.nNodes[j] else 0)
    {
      nodes[i] := nodes[i] + c2.nNodes[i];
    }
    r := ColorData(m, nodes[..]);
  }

  /** The empty tally ColorData() is the join's identity, which
      parallel_reduce relies on. */
  lemma MergeIdentity(c: ColorData)
    requires Sized(c)
    ensures Merged(ColorData(0, []), c) == c && Merged(c, ColorData(0, [])) == c
  {
    assert Merged(ColorData(0, []), c).nNodes == c.nNodes;
    assert Merged(c, ColorData(0, [])).nNodes == c.nNodes;
  }

  /** The join does not depend on the order of its arguments. */
  lemma MergeCommutes(c1: ColorData, c2: ColorData)
    requires Sized(c1) && Sized(c2)
    ensures Merged(c1, c2) == Merged(c2, c1)
  {
    assert Merged(c1, c2).nNodes == Merged(c2, c1).nNodes;
  }

  /** Nor on how the joins are grouped. */
  lemma MergeAssociates(c1: ColorData, c2: ColorData, c3: ColorData)
    requires Sized(c1) && Sized(c2) && Sized(c3)
    ensures Merged(Merged(c1, c2), c3) == Merged(c1, Merged(c2, c3))
  {
    var a, b := Merged(Merged(c1, c2), c3), Merged(c1, Merged(c2, c3));
    assert a.nColors == b.nColors;
    forall i | 0 <= i < a.nColors ensures a.nNodes[i] == b.nNodes[i] {
      assert Count(Merged(c1, c2), i) == Count(c1, i) + Count(c2, i);
      assert Count(Merged(c2, c3), i) == Count(c2, i) + Count(c3, i);
    }
  }

  function Sum(s: seq<nat>): nat {
    if s == [] then 0 else Sum(s[..|s| - 1]) + s[|s| - 1]
  }

  /** The counts of d, padded with zeros to m colours. */
  function Padded(d: ColorData, m: nat): (r: seq<nat>)
    requires Sized(d)
    ensures |r| == m
  {
    seq(m, i requires 0 <= i => Count(d, i))
  }

  /** Padding with zeros adds nothing. */
  lemma {:induction false} SumPadded(d: ColorData, m: nat)
    requires Sized(d) && d.nColors <= m
    ensures Sum(Padded(d, m)) == Sum(d.nNodes)
  {
    if m == d.nColors {
      assert Padded(d, m) == d.nNodes;
    } else {
      SumPadded(d, m - 1);
      assert Padded(d, m)[..m - 1] == Padded(d, m - 1);
    }
  }

  /** The sum of a pointwise sum. */
  lemma {:induction false} SumAdd(a: seq<nat>, b: seq<nat>, c: seq<nat>)
    requires |a| == |b| == |c| && forall i :: 0 <= i < |c| ==> c[i] == a[i] + b[i]
    ensures Sum(c) == Sum(a) + Sum(b)
  {
    if c != [] {
      var n := |c| - 1;
      SumAdd(a[..n], b[..n], c[..n]);
    }
  }

  /** The join loses no vertex: the merged tally counts every vertex the
      two tallies count. */
  lemma MergeTotal(c1: ColorData, c2: ColorData)
    requires Sized(c1) && Sized(c2)
    ensures Sum(Merged(c1, c2).nNodes) == Sum(c1.nNodes) + Sum(c2.nNodes)
  {
    var r := Merged(c1, c2);
    SumAdd(Padded(c1, r.nColors), Padded(c2, r.nColors), r.nNodes);
    SumPadded(c1, r.nColors);
    SumPadded(c2, r.nColors);
  }

  // ---------------------------------------------------------------------
  // The visiting order
  // ---------------------------------------------------------------------

  /** 0, 1, .., size-1. */
  function Iota(size: nat): (r: seq<nat>)
    ensures |r| == size && forall t :: 0 <= t < size ==> r[t] == t
  {
    seq(size, t => t)
  }

  /** Each random draw stays below its bound: draws[i] plays
      rng.nextUInt(size - i). */
  ghost predicate Draws(draws: seq<nat>, size: nat) {
    |draws| == size && forall i :: 0 <= i < size ==> draws[i] < size - i
  }

  /** The order after the first i random swaps. */
  function Shuffled(size: nat, draws: seq<nat>, i: nat): (r: seq<nat>)
    requires Draws(draws, size) && i <= size
    ensures |r| == size
  {
    if i == 0 then Iota(size)
    else
      var s := Shuffled(size, draws, i - 1);
      var j, k := i - 1, draws[i - 1] + i - 1;
      if j == k then s else s[j := s[k]][k := s[j]]
  }

  /** Swapping two entries keeps a permutation a permutation. */
  lemma SwapKeeps(s: seq<nat>, size: nat, j: nat, k: nat)
    requires IsPermutation(s, size) && j < size && k < size
    ensures IsPermutation(s[j := s[k]][k := s[j]], size)
  {
    var s' := s[j := s[k]][k := s[j]];
    forall a, b | 0 <= a < b < size ensures s'[a] != s'[b] {
      var a' := if a == j then k else if a == k then j else a;
      var b' := if b == j then k else if b == k then j else b;
      assert s'[a] == s[a'] && s'[b] == s[b'] && a' != b';
    }
  }

  /** The random swaps build a permutation of the vertices. */
  lemma {:induction false} ShuffledIsPermutation(size: nat, draws: seq<nat>, i: nat)
    requires Draws(draws, size) && i <= size
    ensures IsPermutation(Shuffled(size, draws, i), size)
  {
    if i > 0 {
      ShuffledIsPermutation(size, draws, i - 1);
      SwapKeeps(Shuffled(size, draws, i - 1), size, i - 1, draws[i - 1] + i - 1);
    }
  }

  /** The permutation loop (src/hierarchy.cpp:286-309) run as one range:
      position i is swapped with i + draws[i]. The source's swap of j and k
      when j > k never fires, since k >= i == j. */
  method Shuffle(size: nat, draws: seq<nat>) returns (perm: seq<nat>)
    requires Draws(draws, size)
    ensures perm == Shuffled(size, draws, size) && IsPermutation(perm, size)
  {
    var a := new nat[size](t => t);
    assert a[..] == Iota(size);
    for i := 0 to size
      invariant a[..] == Shuffled(size, draws, i)
    {
      var j, k := i, draws[i] + i;
      if j != k {
        a[j], a[k] := a[k], a[j];
      }
    }
    perm := a[..];
    ShuffledIsPermutation(size, draws, size);
  }

  // ---------------------------------------------------------------------
  // generate_graph_coloring
  // ---------------------------------------------------------------------

  /** generate_graph_coloring (src/hierarchy.cpp:269-389) with one worker
      over the whole range and the random draws given: the order is a
      permutation, the run fails exactly when the greedy colouring in that
      order needs a 255th colour, and otherwise the phases are the
      greedy colouring's. */
  method ColorGraph(adj: Adjacency, size: nat, draws: seq<nat>) returns (perm: seq<nat>, r: Result<seq<seq<nat>>, Fault>)
    requires WellFormed(adj, size) && Draws(draws, size)
    ensures perm == Shuffled(size, draws, size) && IsPermutation(perm, size)
    ensures var p := FirstFit(NeighborLists(adj, size), perm, size);
            && (r.Success? <==> p.k <= MAX_COLORS)
            && (r.Success? ==> r.value == PhasesUpTo(p.col, p.k, size))
  {
    perm := Shuffle(size, draws);
    ghost var g := NeighborLists(adj, size);
    var color := new uint8[size](_ => INVALID_COLOR);
    assert Shades(color[..]) == Blank(size).col;
    var worker := ColorRange(adj, size, g, perm, 0, size, color, ColorData(0, []));
    if worker.Failure? {
      return perm, Failure(worker.error);
    }
    var data := Merge(ColorData(0, []), worker.value);
    MergeIdentity(worker.value);
    FirstFitPainted(g, perm, size);
    PermutationCovers(perm, size);
    assert perm[..size] == perm;
    var phases := BucketByColor(Shades(color[..]), data.nColors);
    r := Success(phases);
  }

  /** The error is only thrown on a corrupt mesh: with at most 253
      neighbours per vertex the greedy colouring never needs a 255th
      colour, in any order. */
  lemma EnoughColors(adj: Adjacency, size: nat, perm: seq<nat>)
    requires WellFormed(adj, size) && InRangeSeq(perm, size) && |perm| == size
    requires forall v :: 0 <= v < size ==> |Neighbors(adj, size, v)| < MAX_COLORS
    ensures FirstFit(NeighborLists(adj, size), perm, size).k <= MAX_COLORS
  {
    FirstFitColorBound(NeighborLists(adj, size), perm, size, MAX_COLORS - 1);
  }
}
