/**
  The first half of graph coarsening (downsample_graph): one merge candidate
  per directed link, sorted by descending score, then one greedy pass that
  accepts every candidate whose two endpoints are still unclaimed and
  compacts the accepted ones into the front of the candidate array.
 */
module Matching {
  import opened Graph
  import opened Sorting
  import opened Vectors

  /** A merge candidate: the link (i, j) with its score. */
  datatype Entry = Entry(i: nat, j: nat, order: real)

  /** The merge score of linking i to k, from their normals and areas (the
      dot product times the area ratio in the source, computed in floating
      point and not modelled). */
  type ScoreFn = (Vec3, real, Vec3, real) -> real

  /** Entry::operator<, deliberately inverted: a sorts before b when a has
      the higher score. */
  predicate EntryLess(a: Entry, b: Entry) {
    a.order > b.order
  }

  /** A key under which an ascending sort is a sort by EntryLess. */
  function EntryKey(e: Entry): real {
    -e.order
  }

  /** Sorting the candidates with std::less<Entry>: no candidate is "less"
      than one before it, so scores are non-increasing, and nothing is lost. */
  function SortEntries(es: seq<Entry>): (r: seq<Entry>)
    ensures multiset(r) == multiset(es)
    ensures forall a, b :: 0 <= a < b < |r| ==> !EntryLess(r[b], r[a]) && r[a].order >= r[b].order
  {
    SortByPermutes(es, EntryKey);
    SortBy(es, EntryKey)
  }

  // ---------------------------------------------------------------------
  // Candidate list (one entry per directed link)
  // ---------------------------------------------------------------------

  /** The candidates of vertex i, in the order of its neighbour list. */
  function RowEntries(adj: Adjacency, n: nat, N: seq<Vec3>, A: seq<real>, score: ScoreFn, i: nat): (r: seq<Entry>)
    requires WellFormed(adj, n) && |N| == n && |A| == n && i < n
    ensures |r| == adj.offsets[i + 1] - adj.offsets[i]
  {
    var row := Neighbors(adj, n, i);
    seq(|row|, j requires 0 <= j < |row| => Entry(i, row[j].id, score(N[i], A[i], N[row[j].id], A[row[j].id])))
  }

  /** The candidates of vertices 0 .. i-1, laid out like the link buffer. */
  function EntriesUpTo(adj: Adjacency, n: nat, N: seq<Vec3>, A: seq<real>, score: ScoreFn, i: nat): (r: seq<Entry>)
    requires WellFormed(adj, n) && |N| == n && |A| == n && i <= n
    ensures |r| == adj.offsets[i]
  {
    if i == 0 then [] else EntriesUpTo(adj, n, N, A, score, i - 1) + RowEntries(adj, n, N, A, score, i - 1)
  }

  /** The candidates of vertices 0 .. i-1 are exactly the directed links
      leaving those vertices. */
  lemma {:induction false} EntriesAreLinks(adj: Adjacency, n: nat, N: seq<Vec3>, A: seq<real>, score: ScoreFn, i: nat)
    requires WellFormed(adj, n) && |N| == n && |A| == n && i <= n
    ensures forall e :: e in EntriesUpTo(adj, n, N, A, score, i) ==> e.i < i && e.j < n && IsNeighbor(adj, n, e.i, e.j)
    ensures forall u, l :: 0 <= u < i && l in Neighbors(adj, n, u) ==>
              exists e :: e in EntriesUpTo(adj, n, N, A, score, i) && e.i == u && e.j == l.id
  {
    if i > 0 {
      EntriesAreLinks(adj, n, N, A, score, i - 1);
      var prev := EntriesUpTo(adj, n, N, A, score, i - 1);
      var row := RowEntries(adj, n, N, A, score, i - 1);
      var nb := Neighbors(adj, n, i - 1);
      assert EntriesUpTo(adj, n, N, A, score, i) == prev + row;
      forall e | e in row ensures e.i == i - 1 && e.j < n && IsNeighbor(adj, n, e.i, e.j) {
        var j :| 0 <= j < |row| && row[j] == e;
        assert nb[j] in nb;
      }
      forall l | l in nb ensures exists e :: e in row && e.i == i - 1 && e.j == l.id {
        var j :| 0 <= j < |nb| && nb[j] == l;
        assert row[j] in row;
      }
      assert forall x :: x in prev ==> x in prev + row;
      assert forall x :: x in row ==> x in prev + row;
    }
  }

  /** Writes the candidates of vertex i at buf[base ..] (the inner loop of
      src/hierarchy.cpp:46-55), leaving everything before them alone. */
  method WriteRow(buf: array<Entry>, base: nat, adj: Adjacency, n: nat, N: seq<Vec3>, A: seq<real>, score: ScoreFn, i: nat)
    requires WellFormed(adj, n) && |N| == n && |A| == n && i < n
    requires base + (adj.offsets[i + 1] - adj.offsets[i]) <= buf.Length
    modifies buf
    ensures buf[..base] == old(buf[..base])
    ensures buf[base..base + (adj.offsets[i + 1] - adj.offsets[i])] == RowEntries(adj, n, N, A, score, i)
  {
    var nNeighbors := adj.offsets[i + 1] - adj.offsets[i];
    ghost var row := RowEntries(adj, n, N, A, score, i);
    for j := 0 to nNeighbors
      invariant buf[..base] == old(buf[..base])
      invariant buf[base..base + j] == row[..j]
    {
      var k := adj.links[adj.offsets[i] + j].id;
      buf[base + j] := Entry(i, k, score(N[i], A[i], N[k], A[k]));
      assert buf[base..base + j + 1] == buf[base..base + j] + [buf[base + j]];
    }
  }

  lemma PrefixExtends(after: seq<Entry>, written: seq<Entry>, row: seq<Entry>, lo: nat)
    requires |written| == lo && lo + |row| <= |after|
    requires after[..lo] == written && after[lo..lo + |row|] == row
    ensures after[..lo + |row|] == written + row
  {
    assert after[..lo + |row|] == after[..lo] + after[lo..lo + |row|];
  }

  /** Fills the candidate array, vertex by vertex (src/hierarchy.cpp:43-58). */
  method CollectEntries(adj: Adjacency, n: nat, N: seq<Vec3>, A: seq<real>, score: ScoreFn) returns (entries: seq<Entry>)
    requires WellFormed(adj, n) && |N| == n && |A| == n
    ensures entries == EntriesUpTo(adj, n, N, A, score, n)
    ensures |entries| == |adj.links|
  {
    var nLinks := adj.offsets[n] - adj.offsets[0];
    var buf := new Entry[nLinks];
    for i := 0 to n
      invariant buf[..adj.offsets[i]] == EntriesUpTo(adj, n, N, A, score, i)
    {
      var base := adj.offsets[i] - adj.offsets[0];
      WriteRow(buf, base, adj, n, N, A, score, i);
      PrefixExtends(buf[..], EntriesUpTo(adj, n, N, A, score, i), RowEntries(adj, n, N, A, score, i), base);
    }
    entries := buf[..];
  }

  // ---------------------------------------------------------------------
  // Greedy matching
  // ---------------------------------------------------------------------

  /** Every candidate names two of the n vertices. */
  ghost predicate InRange(es: seq<Entry>, n: nat) {
    forall e :: e in es ==> e.i < n && e.j < n
  }

  /** No candidate links a vertex to itself. */
  ghost predicate NoSelfPairs(es: seq<Entry>) {
    forall e :: e in es ==> e.i != e.j
  }

  predicate Touches(e: Entry, v: nat) {
    e.i == v || e.j == v
  }

  /** The number of set flags. */
  function CountTrue(f: seq<bool>): (c: nat)
    ensures c <= |f|
  {
    if f == [] then 0 else CountTrue(f[..|f| - 1]) + (if f[|f| - 1] then 1 else 0)
  }

  /** No vertex claimed yet: std::vector<bool> mergeFlag(V.cols(), false). */
  function Unclaimed(n: nat): (f: seq<bool>)
    ensures |f| == n && CountTrue(f) == 0
    ensures forall v :: 0 <= v < n ==> !f[v]
  {
    if n == 0 then [] else
      var f := Unclaimed(n - 1) + [false];
      assert f[..|f| - 1] == Unclaimed(n - 1);
      f
  }

  /** The greedy pass over the sorted candidates, from claim flags f: an
      entry is accepted when neither endpoint is claimed, and then claims
      both. Yields the accepted entries, in order, and the final flags. */
  function Greedy(es: seq<Entry>, f: seq<bool>): (r: (seq<Entry>, seq<bool>))
    requires InRange(es, |f|)
    ensures |r.1| == |f|
    decreases |es|
  {
    if es == [] then ([], f)
    else
      var e := es[0];
      assert e in es;
      assert forall x :: x in es[1..] ==> x in es;
      if f[e.i] || f[e.j] then Greedy(es[1..], f)
      else
        var rest := Greedy(es[1..], f[e.i := true][e.j := true]);
        ([e] + rest.0, rest.1)
  }

  /** One step of the greedy pass over the remaining entries rest, with
      done the entries accepted so far: skipping or accepting rest[0] keeps
      done plus the rest of the pass equal to the whole pass. */
  lemma {:induction false} GreedyAdvance(rest: seq<Entry>, flags: seq<bool>, done: seq<Entry>, goal: (seq<Entry>, seq<bool>))
    requires rest != [] && InRange(rest, |flags|)
    requires done + Greedy(rest, flags).0 == goal.0 && Greedy(rest, flags).1 == goal.1
    ensures InRange(rest[1..], |flags|) && rest[0].i < |flags| && rest[0].j < |flags|
    ensures flags[rest[0].i] || flags[rest[0].j] ==>
              done + Greedy(rest[1..], flags).0 == goal.0 && Greedy(rest[1..], flags).1 == goal.1
    ensures !(flags[rest[0].i] || flags[rest[0].j]) ==>
              var f := flags[rest[0].i := true][rest[0].j := true];
              (done + [rest[0]]) + Greedy(rest[1..], f).0 == goal.0 && Greedy(rest[1..], f).1 == goal.1
  {
    assert rest[0] in rest;
    assert forall x :: x in rest[1..] ==> x in rest;
    if !(flags[rest[0].i] || flags[rest[0].j]) {
      var later := Greedy(rest[1..], flags[rest[0].i := true][rest[0].j := true]).0;
      assert (done + [rest[0]]) + later == done + ([rest[0]] + later);
    }
  }

  /** m is a matching on n vertices whose claimed vertices are f: each pair
      joins two distinct vertices, no two pairs share a vertex, a vertex is
      claimed exactly when some pair contains it, and 2|m| vertices are
      claimed. */
  ghost predicate IsMatching(m: seq<Entry>, f: seq<bool>, n: nat) {
    && |f| == n
    && (forall a :: 0 <= a < |m| ==> m[a].i < n && m[a].j < n && m[a].i != m[a].j)
    && PairwiseDisjoint(m)
    && (forall v :: 0 <= v < n ==> (f[v] <==> exists a :: 0 <= a < |m| && Touches(m[a], v)))
    && CountTrue(f) == 2 * |m|
  }

  lemma {:induction false} CountTrueClaim(f: seq<bool>, v: nat)
    requires v < |f|
    ensures CountTrue(f[v := true]) == CountTrue(f) + (if f[v] then 0 else 1)
  {
    var g := f[v := true];
    if v < |f| - 1 {
      assert g[..|g| - 1] == f[..|f| - 1][v := true];
      CountTrueClaim(f[..|f| - 1], v);
    } else {
      assert g[..|g| - 1] == f[..|f| - 1];
    }
  }

  /** Every pair of m is a candidate of es whose endpoints f leaves unclaimed. */
  ghost predicate AcceptedFrom(m: seq<Entry>, es: seq<Entry>, f: seq<bool>) {
    forall a :: 0 <= a < |m| ==> m[a] in es && m[a].i < |f| && m[a].j < |f| && !f[m[a].i] && !f[m[a].j]
  }

  /** No two pairs of m share a vertex. */
  ghost predicate PairwiseDisjoint(m: seq<Entry>) {
    forall a, b :: 0 <= a < b < |m| ==> !Touches(m[b], m[a].i) && !Touches(m[b], m[a].j)
  }

  /** The greedy pass from flags f accepts only unclaimed, pairwise disjoint
      pairs taken from the candidates. */
  lemma {:induction false} GreedyDisjoint(es: seq<Entry>, f: seq<bool>)
    requires InRange(es, |f|) && NoSelfPairs(es)
    ensures AcceptedFrom(Greedy(es, f).0, es, f)
    ensures PairwiseDisjoint(Greedy(es, f).0)
    decreases |es|
  {
    if es != [] {
      var e := es[0];
      assert e in es;
      assert forall x :: x in es[1..] ==> x in es;
      if f[e.i] || f[e.j] {
        GreedyDisjoint(es[1..], f);
        assert Greedy(es, f) == Greedy(es[1..], f);
      } else {
        var f1 := f[e.i := true][e.j := true];
        GreedyDisjoint(es[1..], f1);
        var m' := Greedy(es[1..], f1).0;
        assert Greedy(es, f).0 == [e] + m';
        AcceptStep(e, m', es, f);
      }
    }
  }

  /** Accepting e in front of a disjoint tail accepted after claiming e's
      endpoints keeps the result accepted and disjoint. */
  lemma AcceptStep(e: Entry, m': seq<Entry>, es: seq<Entry>, f: seq<bool>)
    requires es != [] && es[0] == e && e.i < |f| && e.j < |f| && !f[e.i] && !f[e.j]
    requires AcceptedFrom(m', es[1..], f[e.i := true][e.j := true]) && PairwiseDisjoint(m')
    ensures AcceptedFrom([e] + m', es, f) && PairwiseDisjoint([e] + m')
  {
    var f1 := f[e.i := true][e.j := true];
    var m := [e] + m';
    forall a | 0 <= a < |m| ensures m[a] in es && m[a].i < |f| && m[a].j < |f| && !f[m[a].i] && !f[m[a].j] {
      if a > 0 {
        assert m[a] == m'[a - 1];
        assert m'[a - 1] in es[1..] && !f1[m'[a - 1].i] && !f1[m'[a - 1].j];
      }
    }
    forall a, b | 0 <= a < b < |m| ensures !Touches(m[b], m[a].i) && !Touches(m[b], m[a].j) {
      assert m[b] == m'[b - 1];
      if a > 0 {
        assert m[a] == m'[a - 1];
      } else {
        assert !f1[m'[b - 1].i] && !f1[m'[b - 1].j];
      }
    }
  }

  /** The greedy pass from flags f claims exactly the endpoints of the pairs
      it accepts. */
  lemma {:induction false} GreedyClaims(es: seq<Entry>, f: seq<bool>)
    requires InRange(es, |f|) && NoSelfPairs(es)
    ensures forall v :: 0 <= v < |f| ==>
              (Greedy(es, f).1[v] <==> f[v] || exists a :: 0 <= a < |Greedy(es, f).0| && Touches(Greedy(es, f).0[a], v))
    decreases |es|
  {
    if es != [] {
      var e := es[0];
      assert e in es;
      assert forall x :: x in es[1..] ==> x in es;
      if f[e.i] || f[e.j] {
        GreedyClaims(es[1..], f);
        assert Greedy(es, f) == Greedy(es[1..], f);
      } else {
        var f1 := f[e.i := true][e.j := true];
        GreedyClaims(es[1..], f1);
        assert Greedy(es, f) == ([e] + Greedy(es[1..], f1).0, Greedy(es[1..], f1).1);
        ClaimStep(e, Greedy(es[1..], f1).0, Greedy(es[1..], f1).1, f);
      }
    }
  }

  /** Claiming e's endpoints and then the endpoints of m' claims exactly the
      endpoints of [e] + m'. */
  lemma ClaimStep(e: Entry, m': seq<Entry>, g: seq<bool>, f: seq<bool>)
    requires e.i < |f| && e.j < |f| && |g| == |f|
    requires forall v :: 0 <= v < |f| ==>
               (g[v] <==> f[e.i := true][e.j := true][v] || exists a :: 0 <= a < |m'| && Touches(m'[a], v))
    ensures forall v :: 0 <= v < |f| ==> (g[v] <==> f[v] || exists a :: 0 <= a < |[e] + m'| && Touches(([e] + m')[a], v))
  {
    var m := [e] + m';
    forall v | 0 <= v < |f|
      ensures g[v] <==> f[v] || exists a :: 0 <= a < |m| && Touches(m[a], v)
    {
      if exists a :: 0 <= a < |m'| && Touches(m'[a], v) {
        var a :| 0 <= a < |m'| && Touches(m'[a], v);
        assert Touches(m[a + 1], v);
      }
      if exists a :: 0 <= a < |m| && Touches(m[a], v) {
        var a :| 0 <= a < |m| && Touches(m[a], v);
        if a > 0 {
          assert Touches(m'[a - 1], v);
        }
      }
      if v == e.i || v == e.j {
        assert Touches(m[0], v);
      }
    }
  }

  /** The greedy pass claims two new vertices per accepted pair. */
  lemma {:induction false} GreedyCount(es: seq<Entry>, f: seq<bool>)
    requires InRange(es, |f|) && NoSelfPairs(es)
    ensures CountTrue(Greedy(es, f).1) == CountTrue(f) + 2 * |Greedy(es, f).0|
    decreases |es|
  {
    if es != [] {
      var e := es[0];
      assert e in es;
      assert forall x :: x in es[1..] ==> x in es;
      if f[e.i] || f[e.j] {
        GreedyCount(es[1..], f);
        assert Greedy(es, f) == Greedy(es[1..], f);
      } else {
        var f1 := f[e.i := true][e.j := true];
        GreedyCount(es[1..], f1);
        CountTrueClaim(f, e.i);
        CountTrueClaim(f[e.i := true], e.j);
        assert |Greedy(es, f).0| == 1 + |Greedy(es[1..], f1).0|;
        assert Greedy(es, f).1 == Greedy(es[1..], f1).1;
      }
    }
  }

  /** The greedy pass is maximal: once it is over, every candidate has a
      claimed endpoint, so no further candidate could be accepted. */
  lemma {:induction false} GreedyIsMaximal(es: seq<Entry>, f: seq<bool>)
    requires InRange(es, |f|) && NoSelfPairs(es)
    ensures forall v :: 0 <= v < |f| && f[v] ==> Greedy(es, f).1[v]
    ensures forall e :: e in es ==> Greedy(es, f).1[e.i] || Greedy(es, f).1[e.j]
    decreases |es|
  {
    if es != [] {
      var e := es[0];
      assert e in es;
      assert forall x :: x in es[1..] ==> x in es;
      if f[e.i] || f[e.j] {
        GreedyIsMaximal(es[1..], f);
      } else {
        GreedyIsMaximal(es[1..], f[e.i := true][e.j := true]);
      }
      assert es == [e] + es[1..];
    }
  }

  /** From no claims at all, the greedy pass yields a matching; it is
      non-empty as soon as there is a candidate. */
  lemma GreedyMatching(es: seq<Entry>, n: nat)
    requires InRange(es, n) && NoSelfPairs(es)
    ensures IsMatching(Greedy(es, Unclaimed(n)).0, Greedy(es, Unclaimed(n)).1, n)
    ensures |es| > 0 ==> |Greedy(es, Unclaimed(n)).0| > 0
    ensures 2 * |Greedy(es, Unclaimed(n)).0| <= n
  {
    GreedyDisjoint(es, Unclaimed(n));
    GreedyClaims(es, Unclaimed(n));
    GreedyCount(es, Unclaimed(n));
  }

  /** The greedy pass of src/hierarchy.cpp:68-77, in place: accepted entries
      are copied to the front of `entries`, and `mergeFlag` records the
      claimed vertices. */
  method GreedyMatch(entries: array<Entry>, n: nat) returns (nCollapsed: nat, mergeFlag: array<bool>)
    requires InRange(entries[..], n)
    modifies entries
    ensures fresh(mergeFlag) && mergeFlag.Length == n && nCollapsed <= entries.Length
    ensures entries[..nCollapsed] == Greedy(old(entries[..]), Unclaimed(n)).0
    ensures mergeFlag[..] == Greedy(old(entries[..]), Unclaimed(n)).1
  {
    mergeFlag := new bool[n](_ => false);
    assert mergeFlag[..] == Unclaimed(n);
    ghost var es := entries[..];
    ghost var goal := Greedy(es, Unclaimed(n));
    nCollapsed := 0;
    var i := 0;
    while i < entries.Length
      invariant nCollapsed <= i <= entries.Length
      invariant entries[i..] == es[i..]
      invariant InRange(es[i..], n)
      invariant entries[..nCollapsed] + Greedy(es[i..], mergeFlag[..]).0 == goal.0
      invariant Greedy(es[i..], mergeFlag[..]).1 == goal.1
    {
      ghost var flags := mergeFlag[..];
      ghost var before := entries[..nCollapsed];
      ghost var rest := es[i..];
      assert rest[0] == es[i] && rest[1..] == es[i + 1..];
      GreedyAdvance(rest, flags, before, goal);
      var e := entries[i];
      if !(mergeFlag[e.i] || mergeFlag[e.j]) {
        mergeFlag[e.i] := true;
        mergeFlag[e.j] := true;
        assert mergeFlag[..] == flags[e.i := true][e.j := true];
        entries[nCollapsed] := e;
        nCollapsed := nCollapsed + 1;
        assert entries[..nCollapsed] == before + [e];
      }
      i := i + 1;
    }
  }
}
