/**
  The second half of graph coarsening (downsample_graph, lines 133-204):
  the packed adjacency of the coarse level. For each coarse vertex the links
  of its one or two constituents are gathered through to_lower into a scratch
  list and sorted by id; a first pass counts the distinct neighbours other
  than the vertex itself, prefix sums of the counts give the offsets, and a
  second pass writes the links, summing the weights of duplicate ids.
 */
module CoarseAdjacency {
  import opened Graph
  import opened Sorting

  // ---------------------------------------------------------------------
  // Scratch list of one coarse vertex
  // ---------------------------------------------------------------------

  /** The links of a fine vertex, their targets sent through to_lower. */
  function Remap(links: seq<Link>, toLower: seq<nat>): (r: seq<Link>)
    requires forall l :: l in links ==> l.id < |toLower|
    ensures |r| == |links|
  {
    seq(|links|, k requires 0 <= k < |links| => Link(toLower[links[k].id], links[k].weight))
  }

  /** Slot j (0 or 1) of a to_upper column, INVALID or a fine vertex. */
  function Slot(up: Upper, j: nat): nat {
    if j == 0 then up.first else up.second
  }

  ghost predicate ColumnIn(up: Upper, n: nat) {
    up.first < n && (up.second == INVALID || up.second < n)
  }

  /** The remapped links of slot j, or nothing for an INVALID slot. */
  function Part(adj: Adjacency, n: nat, toLower: seq<nat>, up: Upper, j: nat): seq<Link>
    requires WellFormed(adj, n) && |toLower| == n && ColumnIn(up, n)
  {
    if Slot(up, j) == INVALID || Slot(up, j) >= n then []
    else Remap(Neighbors(adj, n, Slot(up, j)), toLower)
  }

  /** The scratch list of a coarse vertex with column `up`. */
  function Scratch(adj: Adjacency, n: nat, toLower: seq<nat>, up: Upper): seq<Link>
    requires WellFormed(adj, n) && |toLower| == n && ColumnIn(up, n)
  {
    Part(adj, n, toLower, up, 0) + Part(adj, n, toLower, up, 1)
  }

  /** Appends the links of fine vertex v, sent through to_lower, to
      `scratch` (the inner loops of src/hierarchy.cpp:140-148 and 179-187). */
  method AppendRemapped(scratch: seq<Link>, adj: Adjacency, n: nat, toLower: seq<nat>, v: nat) returns (r: seq<Link>)
    requires WellFormed(adj, n) && |toLower| == n && v < n
    ensures r == scratch + Remap(Neighbors(adj, n, v), toLower)
  {
    r := scratch;
    ghost var nb := Neighbors(adj, n, v);
    var lo := adj.offsets[v];
    for k := lo to adj.offsets[v + 1]
      invariant r == scratch + Remap(nb[..k - lo], toLower)
    {
      var link := adj.links[k];
      RemapSnoc(nb, toLower, k - lo);
      r := r + [Link(toLower[link.id], link.weight)];
    }
    assert nb[..adj.offsets[v + 1] - lo] == nb;
  }

  lemma RemapSnoc(links: seq<Link>, toLower: seq<nat>, k: nat)
    requires forall l :: l in links ==> l.id < |toLower|
    requires k < |links|
    ensures forall l :: l in links[..k] ==> l.id < |toLower|
    ensures forall l :: l in links[..k + 1] ==> l.id < |toLower|
    ensures links[k].id < |toLower|
    ensures Remap(links[..k + 1], toLower) == Remap(links[..k], toLower) + [Link(toLower[links[k].id], links[k].weight)]
  {
    assert links[k] in links;
    assert forall l :: l in links[..k + 1] ==> l in links;
  }

  /** Gathers the scratch list (src/hierarchy.cpp:140-148 and 179-187). */
  method GatherScratch(adj: Adjacency, n: nat, toLower: seq<nat>, up: Upper) returns (scratch: seq<Link>)
    requires WellFormed(adj, n) && |toLower| == n && ColumnIn(up, n) && n < INVALID
    ensures scratch == Scratch(adj, n, toLower, up)
  {
    scratch := [];
    for j := 0 to 2
      invariant scratch == if j == 0 then [] else if j == 1 then Part(adj, n, toLower, up, 0) else Scratch(adj, n, toLower, up)
    {
      var upper := Slot(up, j);
      if upper == INVALID {
        continue;
      }
      scratch := AppendRemapped(scratch, adj, n, toLower, upper);
    }
  }

  /** Link's operator< compares ids. */
  function LinkKey(l: Link): real {
    l.id as real
  }

  // ---------------------------------------------------------------------
  // Merging a sorted scratch list
  // ---------------------------------------------------------------------

  /** The targets of a list of links. */
  function Ids(s: seq<Link>): set<nat> {
    set l | l in s :: l.id
  }

  lemma IdsConcat(a: seq<Link>, b: seq<Link>)
    ensures Ids(a + b) == Ids(a) + Ids(b)
  {
    forall d ensures d in Ids(a + b) <==> d in Ids(a) + Ids(b) {
      if d in Ids(a + b) {
        var l :| l in a + b && l.id == d;
      }
      if d in Ids(a) {
        var l :| l in a && l.id == d;
        assert l in a + b;
      }
      if d in Ids(b) {
        var l :| l in b && l.id == d;
        assert l in a + b;
      }
    }
  }

  lemma IdsSingleton(x: Link)
    ensures Ids([x]) == {x.id}
  {
    assert x in [x];
  }

  /** Lists that are permutations of each other have the same targets. */
  lemma IdsPermutation(a: seq<Link>, b: seq<Link>)
    requires multiset(a) == multiset(b)
    ensures Ids(a) == Ids(b)
  {
    forall d ensures d in Ids(a) <==> d in Ids(b) {
      if d in Ids(a) {
        var l :| l in a && l.id == d;
        assert l in multiset(b);
      }
      if d in Ids(b) {
        var l :| l in b && l.id == d;
        assert l in multiset(a);
      }
    }
  }

  /** One step of the writing pass: a link to the vertex itself is dropped,
      a link to the id last written adds its weight to it, any other link is
      appended. */
  function MergeStep(w: seq<Link>, l: Link, self: nat): seq<Link> {
    if l.id == self then w
    else if |w| > 0 && w[|w| - 1].id == l.id then w[..|w| - 1] + [Link(l.id, w[|w| - 1].weight + l.weight)]
    else w + [l]
  }

  /** The links the writing pass produces from scratch list s. */
  function MergedLinks(s: seq<Link>, self: nat): (r: seq<Link>)
    ensures |r| <= |s|
  {
    if s == [] then [] else MergeStep(MergedLinks(s[..|s| - 1], self), s[|s| - 1], self)
  }

  lemma MergedLinksUnfold(s: seq<Link>, k: nat, self: nat)
    requires k < |s|
    ensures MergedLinks(s[..k + 1], self) == MergeStep(MergedLinks(s[..k], self), s[k], self)
  {
    assert s[..k + 1][..k] == s[..k];
  }

  lemma {:induction false} MergedLinksPrefixLength(s: seq<Link>, self: nat, k: nat)
    requires k <= |s|
    ensures |MergedLinks(s[..k], self)| <= |MergedLinks(s, self)|
    decreases |s| - k
  {
    if k < |s| {
      assert s[..k] == s[..k + 1][..k];
      MergedLinksPrefixLength(s, self, k + 1);
    } else {
      assert s[..k] == s;
    }
  }

  lemma MergeStepIds(w: seq<Link>, l: Link, self: nat)
    ensures Ids(MergeStep(w, l, self)) == Ids(w) + (if l.id == self then {} else {l.id})
  {
    if l.id != self {
      if |w| > 0 && w[|w| - 1].id == l.id {
        var w0 := w[..|w| - 1];
        assert w == w0 + [w[|w| - 1]];
        IdsConcat(w0, [w[|w| - 1]]);
        IdsConcat(w0, [Link(l.id, w[|w| - 1].weight + l.weight)]);
        IdsSingleton(w[|w| - 1]);
        IdsSingleton(Link(l.id, w[|w| - 1].weight + l.weight));
      } else {
        IdsConcat(w, [l]);
        IdsSingleton(l);
      }
    }
  }

  /** The merged list links to exactly the targets of the scratch list other
      than the vertex itself. */
  lemma {:induction false} MergedIds(s: seq<Link>, self: nat)
    ensures Ids(MergedLinks(s, self)) == Ids(s) - {self}
  {
    if s != [] {
      var s0 := s[..|s| - 1];
      var x := s[|s| - 1];
      MergedIds(s0, self);
      MergeStepIds(MergedLinks(s0, self), x, self);
      assert s == s0 + [x];
      IdsConcat(s0, [x]);
      IdsSingleton(x);
    }
  }

  /** Every id of a list sorted by id is at most the id of its last link. */
  lemma SortedBelowLast(s: seq<Link>)
    requires SortedBy(s, LinkKey) && |s| > 0
    ensures forall d :: d in Ids(s) ==> d <= s[|s| - 1].id
  {
    forall d | d in Ids(s) ensures d <= s[|s| - 1].id {
      var l :| l in s && l.id == d;
      var a :| 0 <= a < |s| && s[a] == l;
      assert LinkKey(s[a]) <= LinkKey(s[|s| - 1]);
    }
  }

  /** A step keeps a strictly ascending list ascending when the new link's
      id is at least every id already written. */
  lemma MergeStepAscending(w: seq<Link>, x: Link, self: nat)
    requires StrictlyAscending(w)
    requires forall d :: d in Ids(w) ==> d <= x.id
    ensures StrictlyAscending(MergeStep(w, x, self))
  {
    if x.id != self && |w| > 0 {
      var last := w[|w| - 1];
      assert last in w;
      assert last.id in Ids(w);
      var w' := MergeStep(w, x, self);
      if last.id == x.id {
        assert forall k :: 0 <= k < |w'| ==> w'[k].id == w[k].id;
      } else {
        assert w' == w + [x];
      }
    }
  }

  /** Merging a list sorted by id yields a strictly ascending list. */
  lemma {:induction false} MergedAscending(s: seq<Link>, self: nat)
    requires SortedBy(s, LinkKey)
    ensures StrictlyAscending(MergedLinks(s, self))
  {
    if s != [] {
      var s0 := s[..|s| - 1];
      var x := s[|s| - 1];
      assert SortedBy(s0, LinkKey);
      MergedAscending(s0, self);
      MergedIds(s0, self);
      SortedBelowLast(s);
      assert s == s0 + [x];
      IdsConcat(s0, [x]);
      MergeStepAscending(MergedLinks(s0, self), x, self);
    }
  }

  lemma {:induction false} WeightToAbsent(s: seq<Link>, d: nat)
    requires d !in Ids(s)
    ensures WeightTo(s, d) == 0.0
  {
    if s != [] {
      assert s == s[..|s| - 1] + [s[|s| - 1]];
      IdsConcat(s[..|s| - 1], [s[|s| - 1]]);
      IdsSingleton(s[|s| - 1]);
      WeightToAbsent(s[..|s| - 1], d);
    }
  }

  /** One step keeps every written link's weight equal to the total weight
      of the links read so far with its id. */
  lemma MergeStepWeights(w: seq<Link>, s0: seq<Link>, x: Link, self: nat)
    requires StrictlyAscending(w) && Ids(w) == Ids(s0) - {self}
    requires forall d :: d in Ids(s0) ==> d <= x.id
    requires forall k :: 0 <= k < |w| ==> w[k].weight == WeightTo(s0, w[k].id)
    ensures forall k :: 0 <= k < |MergeStep(w, x, self)| ==>
              MergeStep(w, x, self)[k].weight == WeightTo(s0 + [x], MergeStep(w, x, self)[k].id)
  {
    if x.id == self {
      forall k | 0 <= k < |w| ensures w[k].weight == WeightTo(s0 + [x], w[k].id) {
        WeightToSnoc(s0, x, w[k].id);
        assert w[k] in w;
      }
    } else if |w| > 0 && w[|w| - 1].id == x.id {
      MergeStepWeightsAdd(w, s0, x, MergeStep(w, x, self));
    } else {
      MergeStepWeightsAppend(w, s0, x, self, MergeStep(w, x, self));
    }
  }

  lemma WeightToSnoc(s0: seq<Link>, x: Link, d: nat)
    ensures WeightTo(s0 + [x], d) == WeightTo(s0, d) + (if x.id == d then x.weight else 0.0)
  {
    assert (s0 + [x])[..|s0|] == s0;
  }

  /** A link whose id equals the last written one adds its weight to it. */
  lemma MergeStepWeightsAdd(w: seq<Link>, s0: seq<Link>, x: Link, w': seq<Link>)
    requires StrictlyAscending(w) && |w| > 0 && w[|w| - 1].id == x.id
    requires forall k :: 0 <= k < |w| ==> w[k].weight == WeightTo(s0, w[k].id)
    requires w' == w[..|w| - 1] + [Link(x.id, w[|w| - 1].weight + x.weight)]
    ensures forall k :: 0 <= k < |w'| ==> w'[k].weight == WeightTo(s0 + [x], w'[k].id)
  {
    forall k | 0 <= k < |w'| ensures w'[k].weight == WeightTo(s0 + [x], w'[k].id) {
      WeightToSnoc(s0, x, w'[k].id);
      if k < |w| - 1 {
        assert w'[k] == w[k];
      }
    }
  }

  /** A link with a new id is appended with its own weight, the total so
      far of its id being 0. */
  lemma MergeStepWeightsAppend(w: seq<Link>, s0: seq<Link>, x: Link, self: nat, w': seq<Link>)
    requires StrictlyAscending(w) && Ids(w) == Ids(s0) - {self} && x.id != self
    requires |w| == 0 || w[|w| - 1].id != x.id
    requires forall d :: d in Ids(s0) ==> d <= x.id
    requires forall k :: 0 <= k < |w| ==> w[k].weight == WeightTo(s0, w[k].id)
    requires w' == w + [x]
    ensures forall k :: 0 <= k < |w'| ==> w'[k].weight == WeightTo(s0 + [x], w'[k].id)
  {
    forall l | l in w ensures l.id < x.id {
      var k :| 0 <= k < |w| && w[k] == l;
      assert w[|w| - 1] in w;
      assert w[|w| - 1].id in Ids(w);
      assert w[k].id <= w[|w| - 1].id;
    }
    assert x.id !in Ids(w);
    WeightToAbsent(s0, x.id);
    forall k | 0 <= k < |w'| ensures w'[k].weight == WeightTo(s0 + [x], w'[k].id) {
      WeightToSnoc(s0, x, w'[k].id);
      if k < |w| {
        assert w'[k] == w[k];
        assert w[k] in w;
      }
    }
  }

  /** Each merged link carries the total weight of the scratch links to its
      target. */
  lemma {:induction false} MergedWeights(s: seq<Link>, self: nat)
    requires SortedBy(s, LinkKey)
    ensures forall k :: 0 <= k < |MergedLinks(s, self)| ==>
              MergedLinks(s, self)[k].weight == WeightTo(s, MergedLinks(s, self)[k].id)
  {
    if s != [] {
      var s0 := s[..|s| - 1];
      var x := s[|s| - 1];
      assert SortedBy(s0, LinkKey);
      MergedWeights(s0, self);
      MergedIds(s0, self);
      MergedAscending(s0, self);
      SortedBelowLast(s);
      assert s == s0 + [x];
      IdsConcat(s0, [x]);
      MergeStepWeights(MergedLinks(s0, self), s0, x, self);
    }
  }

  /** Pass 1 (src/hierarchy.cpp:151-157): counts the distinct ids other than
      the vertex itself, exactly the number of links pass 2 writes. */
  method CountDistinct(sorted: seq<Link>, self: nat) returns (size: nat)
    requires forall l :: l in sorted ==> l.id < INVALID
    ensures size == |MergedLinks(sorted, self)|
  {
    var id := INVALID;
    size := 0;
    for k := 0 to |sorted|
      invariant size == |MergedLinks(sorted[..k], self)|
      invariant id == if size == 0 then INVALID else MergedLinks(sorted[..k], self)[size - 1].id
    {
      var link := sorted[k];
      MergedLinksUnfold(sorted, k, self);
      assert link in sorted;
      if id != link.id && link.id != self {
        id := link.id;
        size := size + 1;
      }
    }
    assert sorted[..|sorted|] == sorted;
  }

  /** One iteration of pass 2 (src/hierarchy.cpp:191-198): `w` is what has
      been written at buf[start ..] so far and `id` the id written last. */
  method WriteLink(buf: array<Link>, start: nat, dest: nat, id: nat, link: Link, self: nat, ghost w: seq<Link>)
      returns (dest': nat, id': nat)
    requires dest == start + |w| && start + |MergeStep(w, link, self)| <= buf.Length
    requires id == if w == [] then INVALID else w[|w| - 1].id
    requires link.id < INVALID
    requires forall q :: 0 <= q < |w| ==> buf[start + q] == w[q]
    modifies buf
    ensures dest' == start + |MergeStep(w, link, self)|
    ensures id' == if MergeStep(w, link, self) == [] then INVALID else MergeStep(w, link, self)[|MergeStep(w, link, self)| - 1].id
    ensures forall q :: 0 <= q < |MergeStep(w, link, self)| ==> buf[start + q] == MergeStep(w, link, self)[q]
    ensures forall q :: 0 <= q < buf.Length && (q < start || start + |MergeStep(w, link, self)| <= q) ==> buf[q] == old(buf[q])
  {
    dest', id' := dest, id;
    if link.id != self {
      if id != link.id {
        buf[dest] := link;
        dest' := dest + 1;
        id' := link.id;
        assert MergeStep(w, link, self) == w + [link];
      } else {
        buf[dest - 1] := Link(buf[dest - 1].id, buf[dest - 1].weight + link.weight);
        assert MergeStep(w, link, self) == w[..|w| - 1] + [Link(link.id, w[|w| - 1].weight + link.weight)];
      }
    }
  }

  /** Pass 2 (src/hierarchy.cpp:189-199): writes the merged links of one
      coarse vertex at buf[start ..] through a moving destination index,
      adding a duplicate id's weight to the link written last; the rest of
      the buffer is left alone. */
  method WriteMerged(buf: array<Link>, start: nat, sorted: seq<Link>, self: nat)
    requires forall l :: l in sorted ==> l.id < INVALID
    requires start + |MergedLinks(sorted, self)| <= buf.Length
    modifies buf
    ensures buf[..start] == old(buf[..start])
    ensures buf[start..start + |MergedLinks(sorted, self)|] == MergedLinks(sorted, self)
    ensures buf[start + |MergedLinks(sorted, self)|..] == old(buf[start + |MergedLinks(sorted, self)|..])
  {
    ghost var total := |MergedLinks(sorted, self)|;
    ghost var before := buf[..];
    ghost var w: seq<Link> := [];
    var dest := start;
    var id := INVALID;
    for k := 0 to |sorted|
      invariant w == MergedLinks(sorted[..k], self)
      invariant dest == start + |w| <= start + total
      invariant forall q :: 0 <= q < |w| ==> buf[start + q] == w[q]
      invariant id == if w == [] then INVALID else w[|w| - 1].id
      invariant forall q :: 0 <= q < buf.Length && (q < start || start + total <= q) ==> buf[q] == before[q]
    {
      assert sorted[k] in sorted;
      MergedLinksUnfold(sorted, k, self);
      MergedLinksPrefixLength(sorted, self, k + 1);
      dest, id := WriteLink(buf, start, dest, id, sorted[k], self, w);
      w := MergeStep(w, sorted[k], self);
    }
    assert sorted[..|sorted|] == sorted;
    WrittenRange(before, buf[..], start, w);
  }

  /** A buffer that holds `w` from `start` on and agrees with `before`
      elsewhere, in slices. */
  lemma WrittenRange(before: seq<Link>, after: seq<Link>, start: nat, w: seq<Link>)
    requires |before| == |after| && start + |w| <= |after|
    requires forall q :: 0 <= q < |w| ==> after[start + q] == w[q]
    requires forall q :: 0 <= q < |after| && (q < start || start + |w| <= q) ==> after[q] == before[q]
    ensures after[..start] == before[..start]
    ensures after[start..start + |w|] == w
    ensures after[start + |w|..] == before[start + |w|..]
  {
  }

  // ---------------------------------------------------------------------
  // Coarse neighbour lists and their packing
  // ---------------------------------------------------------------------
  /** The fine links of the one or two constituents of column `up`. */
  function FineLinks(adj: Adjacency, n: nat, up: Upper): (r: seq<Link>)
    requires WellFormed(adj, n) && ColumnIn(up, n)
    ensures forall l :: l in r ==> l.id < n
  {
    Neighbors(adj, n, up.first) + (if up.second == INVALID then [] else Neighbors(adj, n, up.second))
  }

  /** The coarse vertices that the links of `links` reach through to_lower. */
  ghost function Targets(links: seq<Link>, toLower: seq<nat>): set<nat>
    requires forall l :: l in links ==> l.id < |toLower|
  {
    set l | l in links :: toLower[l.id]
  }

  /** The coarse vertices other than c that the constituents of column
      `up` reach through to_lower. */
  ghost function CoarseTargets(adj: Adjacency, n: nat, toLower: seq<nat>, up: Upper, c: nat): set<nat>
    requires WellFormed(adj, n) && |toLower| == n && ColumnIn(up, n)
  {
    set l | l in FineLinks(adj, n, up) && toLower[l.id] != c :: toLower[l.id]
  }

  /** The total weight of the links of the constituents of column `up` that
      go to fine vertices sent to d. */
  function FineWeight(adj: Adjacency, n: nat, toLower: seq<nat>, up: Upper, d: nat): real
    requires WellFormed(adj, n) && |toLower| == n && ColumnIn(up, n)
  {
    WeightInto(FineLinks(adj, n, up), toLower, d)
  }

  /** What coarse vertex c's neighbour list must be: strictly ascending by
      id, linking to exactly the coarse vertices other than c that the fine
      links of c's constituents reach through to_lower, each link weighing
      the total of the fine links it absorbed. These three facts determine
      the list. */
  ghost predicate IsCoarseList(l: seq<Link>, adj: Adjacency, n: nat, toLower: seq<nat>, up: Upper, c: nat)
    requires WellFormed(adj, n) && |toLower| == n && ColumnIn(up, n)
  {
    && StrictlyAscending(l)
    && Ids(l) == CoarseTargets(adj, n, toLower, up, c)
    && (forall k :: 0 <= k < |l| ==> l[k].weight == FineWeight(adj, n, toLower, up, l[k].id))
  }

  /** The number of distinct coarse neighbours of c. */
  ghost function CoarseDegree(adj: Adjacency, n: nat, toLower: seq<nat>, up: Upper, c: nat): nat
    requires WellFormed(adj, n) && |toLower| == n && ColumnIn(up, n)
  {
    |CoarseTargets(adj, n, toLower, up, c)|
  }

  /** A strictly ascending list has as many links as targets. */
  lemma {:induction false} AscendingCard(l: seq<Link>)
    requires StrictlyAscending(l)
    ensures |Ids(l)| == |l|
  {
    if l != [] {
      var l0 := l[..|l| - 1];
      var last := l[|l| - 1];
      AscendingDropLast(l);
      AscendingCard(l0);
      assert l == l0 + [last];
      IdsConcat(l0, [last]);
      IdsSingleton(last);
    }
  }

  /** Dropping the last link of a strictly ascending list keeps it
      ascending and leaves the last id out of the rest. */
  lemma AscendingDropLast(l: seq<Link>)
    requires StrictlyAscending(l) && l != []
    ensures StrictlyAscending(l[..|l| - 1])
    ensures l[|l| - 1].id !in Ids(l[..|l| - 1])
  {
    var l0 := l[..|l| - 1];
    forall x | x in l0 ensures x.id != l[|l| - 1].id {
      var k :| 0 <= k < |l0| && l0[k] == x;
    }
  }

  lemma {:induction false} RemapWeight(links: seq<Link>, toLower: seq<nat>, d: nat)
    requires forall l :: l in links ==> l.id < |toLower|
    ensures WeightTo(Remap(links, toLower), d) == WeightInto(links, toLower, d)
  {
    if links != [] {
      var s := links[..|links| - 1];
      assert forall l :: l in s ==> l in links;
      assert Remap(links, toLower)[..|links| - 1] == Remap(s, toLower);
      RemapWeight(s, toLower, d);
    }
  }

  lemma RemapIds(links: seq<Link>, toLower: seq<nat>)
    requires forall l :: l in links ==> l.id < |toLower|
    ensures Ids(Remap(links, toLower)) == Targets(links, toLower)
  {
    var r := Remap(links, toLower);
    forall d ensures d in Ids(r) <==> d in Targets(links, toLower) {
      if d in Ids(r) {
        var l :| l in r && l.id == d;
        var k :| 0 <= k < |r| && r[k] == l;
        assert links[k] in links;
      }
      if d in Targets(links, toLower) {
        var l :| l in links && toLower[l.id] == d;
        var k :| 0 <= k < |links| && links[k] == l;
        assert r[k] in r;
      }
    }
  }

  lemma RemapConcat(a: seq<Link>, b: seq<Link>, toLower: seq<nat>)
    requires forall l :: l in a + b ==> l.id < |toLower|
    ensures forall l :: l in a ==> l.id < |toLower|
    ensures forall l :: l in b ==> l.id < |toLower|
    ensures Remap(a + b, toLower) == Remap(a, toLower) + Remap(b, toLower)
  {
    assert forall l :: l in a ==> l in a + b;
    assert forall l :: l in b ==> l in a + b;
  }

  /** The scratch list is the column's fine links sent through to_lower. */
  lemma ScratchIsRemap(adj: Adjacency, n: nat, toLower: seq<nat>, up: Upper)
    requires WellFormed(adj, n) && |toLower| == n && ColumnIn(up, n) && n < INVALID
    ensures Scratch(adj, n, toLower, up) == Remap(FineLinks(adj, n, up), toLower)
  {
    var nb := Neighbors(adj, n, up.first);
    var rest := if up.second == INVALID then [] else Neighbors(adj, n, up.second);
    RemapConcat(nb, rest, toLower);
    assert Part(adj, n, toLower, up, 0) == Remap(nb, toLower);
    assert Part(adj, n, toLower, up, 1) == Remap(rest, toLower);
  }

  /** The targets of the scratch list are the coarse vertices reached from
      the column's constituents, all of them coarse vertices. */
  lemma ScratchIds(adj: Adjacency, n: nat, toUpper: seq<Upper>, toLower: seq<nat>, c: nat)
    requires WellFormed(adj, n) && IndexMapsInverse(toUpper, toLower, n) && c < |toUpper| && n < INVALID
    ensures Ids(Scratch(adj, n, toLower, toUpper[c])) == Targets(FineLinks(adj, n, toUpper[c]), toLower)
    ensures forall d :: d in Targets(FineLinks(adj, n, toUpper[c]), toLower) ==> d < |toUpper|
  {
    var links := FineLinks(adj, n, toUpper[c]);
    ScratchIsRemap(adj, n, toLower, toUpper[c]);
    RemapIds(links, toLower);
    forall d | d in Targets(links, toLower) ensures d < |toUpper| {
      var l :| l in links && toLower[l.id] == d;
    }
  }

  /** Leaving c out of the targets of the column gives c's coarse targets. */
  lemma CoarseTargetsWithout(adj: Adjacency, n: nat, toLower: seq<nat>, up: Upper, c: nat)
    requires WellFormed(adj, n) && |toLower| == n && ColumnIn(up, n)
    ensures Targets(FineLinks(adj, n, up), toLower) - {c} == CoarseTargets(adj, n, toLower, up, c)
  {
    var links := FineLinks(adj, n, up);
    forall d ensures d in Targets(links, toLower) - {c} <==> d in CoarseTargets(adj, n, toLower, up, c) {
      if d in Targets(links, toLower) - {c} {
        var l :| l in links && toLower[l.id] == d;
      }
    }
  }

  /** Whatever order a sort leaves equal ids in, merging the sorted scratch
      list of coarse vertex c yields c's coarse neighbour list, with
      CoarseDegree(c) links, all to coarse vertices. */
  lemma MergedScratchIsCoarse(adj: Adjacency, n: nat, toUpper: seq<Upper>, toLower: seq<nat>, c: nat, sorted: seq<Link>)
    requires WellFormed(adj, n) && IndexMapsInverse(toUpper, toLower, n) && c < |toUpper| && n < INVALID
    requires SortedBy(sorted, LinkKey) && multiset(sorted) == multiset(Scratch(adj, n, toLower, toUpper[c]))
    ensures IsCoarseList(MergedLinks(sorted, c), adj, n, toLower, toUpper[c], c)
    ensures |MergedLinks(sorted, c)| == CoarseDegree(adj, n, toLower, toUpper[c], c)
    ensures forall l :: l in MergedLinks(sorted, c) ==> l.id < |toUpper|
  {
    var up := toUpper[c];
    var scratch := Scratch(adj, n, toLower, up);
    var r := MergedLinks(sorted, c);
    MergedAscending(sorted, c);
    MergedIds(sorted, c);
    IdsPermutation(sorted, scratch);
    ScratchIds(adj, n, toUpper, toLower, c);
    CoarseTargetsWithout(adj, n, toLower, up, c);
    AscendingCard(r);
    forall l | l in r ensures l.id < |toUpper| {
      assert l.id in Ids(r);
    }
    MergedScratchWeights(adj, n, toLower, up, c, sorted);
  }

  /** Each merged link weighs the total of the fine links it absorbed. */
  lemma MergedScratchWeights(adj: Adjacency, n: nat, toLower: seq<nat>, up: Upper, c: nat, sorted: seq<Link>)
    requires WellFormed(adj, n) && |toLower| == n && ColumnIn(up, n) && n < INVALID
    requires SortedBy(sorted, LinkKey) && multiset(sorted) == multiset(Scratch(adj, n, toLower, up))
    ensures forall k :: 0 <= k < |MergedLinks(sorted, c)| ==>
              MergedLinks(sorted, c)[k].weight == FineWeight(adj, n, toLower, up, MergedLinks(sorted, c)[k].id)
  {
    var scratch := Scratch(adj, n, toLower, up);
    var r := MergedLinks(sorted, c);
    MergedWeights(sorted, c);
    ScratchIsRemap(adj, n, toLower, up);
    forall k | 0 <= k < |r| ensures r[k].weight == FineWeight(adj, n, toLower, up, r[k].id) {
      WeightToPermutation(sorted, scratch, r[k].id);
      RemapWeight(FineLinks(adj, n, up), toLower, r[k].id);
    }
  }

  /** Gathers and sorts the scratch list of coarse vertex i; merging it
      gives i's coarse neighbour list. */
  method SortedScratch(adj: Adjacency, n: nat, toUpper: seq<Upper>, toLower: seq<nat>, i: nat) returns (sorted: seq<Link>)
    requires WellFormed(adj, n) && IndexMapsInverse(toUpper, toLower, n) && i < |toUpper| && n < INVALID
    ensures IsCoarseList(MergedLinks(sorted, i), adj, n, toLower, toUpper[i], i)
    ensures |MergedLinks(sorted, i)| == CoarseDegree(adj, n, toLower, toUpper[i], i)
    ensures forall l :: l in MergedLinks(sorted, i) ==> l.id < |toUpper|
    ensures forall l :: l in sorted ==> l.id < INVALID
  {
    var scratch := GatherScratch(adj, n, toLower, toUpper[i]);
    sorted := SortBy(scratch, LinkKey);
    SortByPermutes(scratch, LinkKey);
    MergedScratchIsCoarse(adj, n, toUpper, toLower, i, sorted);
    ScratchIds(adj, n, toUpper, toLower, i);
    IdsPermutation(sorted, scratch);
    ColumnsAtMostFine(toUpper, toLower, n);
    forall l | l in sorted ensures l.id < INVALID {
      assert l.id in Ids(sorted);
    }
  }

  /** Pass 1 for coarse vertex i (src/hierarchy.cpp:140-157): counts the
      distinct targets of its sorted scratch list other than i itself. */
  method NeighborhoodSize(adj: Adjacency, n: nat, toUpper: seq<Upper>, toLower: seq<nat>, i: nat) returns (size: nat)
    requires WellFormed(adj, n) && IndexMapsInverse(toUpper, toLower, n) && i < |toUpper| && n < INVALID
    ensures size == CoarseDegree(adj, n, toLower, toUpper[i], i)
  {
    var sorted := SortedScratch(adj, n, toUpper, toLower, i);
    size := CountDistinct(sorted, i);
  }

  /** Sum of a sequence of counts. */
  function SumNat(s: seq<nat>): nat {
    if s == [] then 0 else SumNat(s[..|s| - 1]) + s[|s| - 1]
  }

  /** Prefix sums start at 0 and grow by the next count at each step. */
  lemma PrefixSumsStep(counts: seq<nat>, sums: seq<nat>)
    requires |sums| == |counts| >= 1
    requires forall k :: 0 <= k < |sums| ==> sums[k] == SumNat(counts[1..k + 1])
    ensures sums[0] == 0
    ensures forall c :: 0 <= c < |sums| - 1 ==> sums[c + 1] == sums[c] + counts[c + 1]
    ensures forall a, b :: 0 <= a <= b < |sums| ==> sums[a] <= sums[b]
  {
    assert counts[1..1] == [];
    forall c | 0 <= c < |sums| - 1 ensures sums[c + 1] == sums[c] + counts[c + 1] {
      assert counts[1..c + 2][..c] == counts[1..c + 1];
    }
    forall a, b | 0 <= a <= b < |sums| ensures sums[a] <= sums[b] {
      OffsetsMonotone(sums, a, b);
    }
  }

  /** In-place prefix sums of the neighbourhood sizes (src/hierarchy.cpp:164-166):
      the table starts at 0 and entry k becomes the sum of the counts at
      entries 1 .. k. */
  method PrefixSums(counts: seq<nat>) returns (sums: seq<nat>)
    requires |counts| >= 1
    ensures |sums| == |counts|
    ensures forall k :: 0 <= k < |sums| ==> sums[k] == SumNat(counts[1..k + 1])
    ensures sums[0] == 0
    ensures forall c :: 0 <= c < |sums| - 1 ==> sums[c + 1] == sums[c] + counts[c + 1]
    ensures forall a, b :: 0 <= a <= b < |sums| ==> sums[a] <= sums[b]
  {
    sums := counts[0 := 0];
    for i := 0 to |counts| - 1
      invariant |sums| == |counts|
      invariant forall k :: 0 <= k <= i ==> sums[k] == SumNat(counts[1..k + 1])
      invariant forall k :: i < k < |sums| ==> sums[k] == counts[k]
    {
      assert counts[1..i + 2][..i] == counts[1..i + 1];
      sums := sums[i + 1 := sums[i + 1] + sums[i]];
    }
    PrefixSumsStep(counts, sums);
  }

  /** Offsets that grow by a count at each step are non-decreasing. */
  lemma {:induction false} OffsetsMonotone(offsets: seq<nat>, i: nat, j: nat)
    requires forall c :: 0 <= c < |offsets| - 1 ==> offsets[c] <= offsets[c + 1]
    requires i <= j < |offsets|
    ensures offsets[i] <= offsets[j]
    decreases j - i
  {
    if i < j {
      OffsetsMonotone(offsets, i, j - 1);
    }
  }

  /** Pass 1 (src/hierarchy.cpp:133-162): entry c+1 of the table receives
      the number of distinct coarse neighbours of coarse vertex c; entry 0
      stays 0. */
  method NeighborhoodSizes(adj: Adjacency, n: nat, toUpper: seq<Upper>, toLower: seq<nat>) returns (neighborhoodSize: seq<nat>)
    requires WellFormed(adj, n) && IndexMapsInverse(toUpper, toLower, n) && n < INVALID
    ensures |neighborhoodSize| == |toUpper| + 1
    ensures forall c :: 0 <= c < |toUpper| ==>
              neighborhoodSize[c + 1] == CoarseDegree(adj, n, toLower, toUpper[c], c)
  {
    var nc := |toUpper|;
    neighborhoodSize := seq(nc + 1, _ => 0);
    for i := 0 to nc
      invariant |neighborhoodSize| == nc + 1
      invariant forall c :: 0 <= c < i ==> neighborhoodSize[c + 1] == CoarseDegree(adj, n, toLower, toUpper[c], c)
    {
      var size := NeighborhoodSize(adj, n, toUpper, toLower, i);
      neighborhoodSize := neighborhoodSize[i + 1 := size];
    }
  }

  /** The offsets table (src/hierarchy.cpp:133-166): after pass 1, prefix
      sums turn the counts into start positions, so coarse vertex c's list
      occupies CoarseDegree(c) slots from offsets[c]. */
  method CoarseOffsets(adj: Adjacency, n: nat, toUpper: seq<Upper>, toLower: seq<nat>) returns (offsets: seq<nat>)
    requires WellFormed(adj, n) && IndexMapsInverse(toUpper, toLower, n) && n < INVALID
    ensures |offsets| == |toUpper| + 1 && offsets[0] == 0
    ensures forall c :: 0 <= c < |toUpper| ==>
              offsets[c + 1] == offsets[c] + CoarseDegree(adj, n, toLower, toUpper[c], c)
    ensures forall a, b :: 0 <= a <= b <= |toUpper| ==> offsets[a] <= offsets[b]
  {
    var neighborhoodSize := NeighborhoodSizes(adj, n, toUpper, toLower);
    offsets := PrefixSums(neighborhoodSize);
  }

  /** Pass 2 for coarse vertex i (src/hierarchy.cpp:168-199): gathers,
      sorts and merges i's scratch list into the buffer from `start`,
      leaving i's coarse list there, reported as `list`, and everything
      before it untouched. */
  method WriteCoarseList(buf: array<Link>, start: nat, adj: Adjacency, n: nat, toUpper: seq<Upper>, toLower: seq<nat>, i: nat)
      returns (ghost list: seq<Link>)
    requires WellFormed(adj, n) && IndexMapsInverse(toUpper, toLower, n) && i < |toUpper| && n < INVALID
    requires start + CoarseDegree(adj, n, toLower, toUpper[i], i) <= buf.Length
    modifies buf
    ensures buf[..start] == old(buf[..start])
    ensures |list| == CoarseDegree(adj, n, toLower, toUpper[i], i)
    ensures buf[start..start + |list|] == list
    ensures IsCoarseList(list, adj, n, toLower, toUpper[i], i)
    ensures forall l :: l in list ==> l.id < |toUpper|
  {
    var sorted := SortedScratch(adj, n, toUpper, toLower, i);
    WriteMerged(buf, start, sorted, i);
    list := MergedLinks(sorted, i);
  }

  /** A prefix followed by the segment written after it is a longer prefix. */
  lemma PrefixGrows(after: seq<Link>, written: seq<Link>, list: seq<Link>, lo: nat, hi: nat)
    requires |written| == lo && hi == lo + |list| <= |after|
    requires after[..lo] == written && after[lo..hi] == list
    ensures after[..hi] == written + list
    ensures after[..hi][lo..hi] == list
  {
    assert after[..hi] == after[..lo] + after[lo..hi];
  }

  lemma AppendIdsBelow(written: seq<Link>, list: seq<Link>, bound: nat)
    requires forall k :: 0 <= k < |written| ==> written[k].id < bound
    requires forall l :: l in list ==> l.id < bound
    ensures forall k :: 0 <= k < |written + list| ==> (written + list)[k].id < bound
  {
    forall k | |written| <= k < |written + list| ensures (written + list)[k].id < bound {
      assert (written + list)[k] in list;
    }
  }

  /** Writing past the end of a prefix leaves the segments inside it as
      they were. */
  lemma {:induction false} SegmentsKept(written: seq<Link>, next: seq<Link>, offsets: seq<nat>, i: nat)
    requires i < |offsets| && |written| == offsets[i] <= |next| && next[..offsets[i]] == written
    requires forall a, b :: 0 <= a <= b <= i ==> offsets[a] <= offsets[b]
    ensures forall c :: 0 <= c < i ==> next[offsets[c]..offsets[c + 1]] == written[offsets[c]..offsets[c + 1]]
  {
    forall c | 0 <= c < i ensures next[offsets[c]..offsets[c + 1]] == written[offsets[c]..offsets[c + 1]] {
      var lo, hi := offsets[c], offsets[c + 1];
      assert lo <= hi <= offsets[i];
      forall j | 0 <= j < hi - lo ensures next[lo..hi][j] == written[lo..hi][j] {
        assert next[lo..hi][j] == next[lo + j] == next[..offsets[i]][lo + j];
      }
    }
  }

  /** Appending coarse vertex i's list after the lists of the vertices
      before it extends the layout by one vertex. */
  lemma LayoutExtends(adj: Adjacency, n: nat, toUpper: seq<Upper>, toLower: seq<nat>, offsets: seq<nat>,
                      written: seq<Link>, list: seq<Link>, i: nat)
    requires WellFormed(adj, n) && IndexMapsInverse(toUpper, toLower, n)
    requires i < |toUpper| && |offsets| == |toUpper| + 1
    requires forall a, b :: 0 <= a <= b <= |toUpper| ==> offsets[a] <= offsets[b]
    requires |written| == offsets[i] && offsets[i + 1] == offsets[i] + |list|
    requires forall c :: 0 <= c < i ==>
               IsCoarseList(written[offsets[c]..offsets[c + 1]], adj, n, toLower, toUpper[c], c)
    requires IsCoarseList(list, adj, n, toLower, toUpper[i], i)
    ensures forall c :: 0 <= c < i + 1 ==>
              IsCoarseList((written + list)[offsets[c]..offsets[c + 1]], adj, n, toLower, toUpper[c], c)
  {
    var next := written + list;
    assert next[..offsets[i]] == written;
    SegmentsKept(written, next, offsets, i);
    assert next[offsets[i]..offsets[i + 1]] == list;
  }

  /** The link buffer (src/hierarchy.cpp:168-201): pass 2 writes every
      coarse vertex's list at its offset. */
  method CoarseLinks(adj: Adjacency, n: nat, toUpper: seq<Upper>, toLower: seq<nat>, offsets: seq<nat>) returns (links: seq<Link>)
    requires WellFormed(adj, n) && IndexMapsInverse(toUpper, toLower, n) && n < INVALID
    requires |offsets| == |toUpper| + 1 && offsets[0] == 0
    requires forall c :: 0 <= c < |toUpper| ==>
               offsets[c + 1] == offsets[c] + CoarseDegree(adj, n, toLower, toUpper[c], c)
    requires forall a, b :: 0 <= a <= b <= |toUpper| ==> offsets[a] <= offsets[b]
    ensures |links| == offsets[|toUpper|]
    ensures forall c :: 0 <= c < |toUpper| ==>
              IsCoarseList(links[offsets[c]..offsets[c + 1]], adj, n, toLower, toUpper[c], c)
    ensures forall k :: 0 <= k < |links| ==> links[k].id < |toUpper|
  {
    var nc := |toUpper|;
    var buf := new Link[offsets[nc]];
    ghost var written: seq<Link> := [];
    for i := 0 to nc
      invariant written == buf[..offsets[i]]
      invariant forall c :: 0 <= c < i ==>
                  IsCoarseList(written[offsets[c]..offsets[c + 1]], adj, n, toLower, toUpper[c], c)
      invariant forall k :: 0 <= k < |written| ==> written[k].id < nc
    {
      assert offsets[i] + CoarseDegree(adj, n, toLower, toUpper[i], i) == offsets[i + 1] <= offsets[nc];
      ghost var list := WriteCoarseList(buf, offsets[i], adj, n, toUpper, toLower, i);
      ghost var next := buf[..offsets[i + 1]];
      PrefixGrows(buf[..], written, list, offsets[i], offsets[i + 1]);
      LayoutExtends(adj, n, toUpper, toLower, offsets, written, list, i);
      AppendIdsBelow(written, list, nc);
      written := next;
    }
    links := buf[..];
    assert links == written;
  }

  /** Builds the packed coarse adjacency (src/hierarchy.cpp:133-204): the
      result is well formed over the coarse vertices and every coarse vertex
      c's neighbour list is its coarse list. */
  method BuildCoarseAdjacency(adj: Adjacency, n: nat, toUpper: seq<Upper>, toLower: seq<nat>) returns (adjP: Adjacency)
    requires WellFormed(adj, n) && IndexMapsInverse(toUpper, toLower, n) && n < INVALID
    ensures WellFormed(adjP, |toUpper|)
    ensures forall c :: 0 <= c < |toUpper| ==>
              IsCoarseList(Neighbors(adjP, |toUpper|, c), adj, n, toLower, toUpper[c], c)
  {
    var offsets := CoarseOffsets(adj, n, toUpper, toLower);
    var links := CoarseLinks(adj, n, toUpper, toLower, offsets);
    adjP := Adjacency(offsets, links);
  }

  /** There are no more coarse vertices than fine ones: to_upper's first
      slots are distinct fine vertices. */
  lemma ColumnsAtMostFine(toUpper: seq<Upper>, toLower: seq<nat>, n: nat)
    requires IndexMapsInverse(toUpper, toLower, n)
    ensures |toUpper| <= n
  {
    var cols := Below(|toUpper|);
    var firsts := set c | c in cols :: toUpper[c].first;
    InjectiveImage(cols, toUpper, toLower);
    assert firsts <= Below(n);
    SubsetCard(firsts, Below(n));
  }

  lemma InjectiveImage(cols: set<nat>, toUpper: seq<Upper>, back: seq<nat>)
    requires forall c :: c in cols ==> c < |toUpper| && toUpper[c].first < |back| && back[toUpper[c].first] == c
    ensures |cols| <= |set c | c in cols :: toUpper[c].first|
  {
    if cols != {} {
      var c :| c in cols;
      var rest := cols - {c};
      InjectiveImage(rest, toUpper, back);
      var img := set c' | c' in cols :: toUpper[c'].first;
      var imgRest := set c' | c' in rest :: toUpper[c'].first;
      assert toUpper[c].first !in imgRest;
      assert img == imgRest + {toUpper[c].first};
    }
  }
}
