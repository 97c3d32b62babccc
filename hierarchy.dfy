/**
  MultiResolutionHierarchy: the stack of levels (adjacency, positions,
  normals, areas, colouring phases, index maps to the next coarser level,
  orientation/position fields and their constraints), with build,
  clearConstraints, propagateSolution and propagateConstraints. levels() is
  the number of position matrices and size(i) the vertex count of level i;
  MAX_DEPTH is a parameter of Build. The random orders of both colourers
  come from a default-seeded generator, so they are functions of the level
  size and are given as parameters.
 */
module Hierarchy {
  import opened Graph
  import opened Vectors
  import opened Outcomes
  import opened Matching
  import opened CoarseAdjacency
  import opened Coloring
  import opened Downsample
  import opened Propagation
  import ParallelColoring
  import opened LevelStack

  /** downsample_graph on a whole level (src/hierarchy.cpp:436-438): the
      next coarser level and the index maps to it. */
  method NextLevel(adj: Adjacency, V: seq<Vec3>, N: seq<Vec3>, A: seq<real>, score: ScoreFn, pool: Pool)
    returns (adjP: Adjacency, Vp: seq<Vec3>, Np: seq<Vec3>, Ap: seq<real>, up: seq<Upper>, low: seq<nat>)
    requires LevelOk(adj, V, N, A)
    ensures Coarsens(adj, V, N, A, adjP, Vp, Np, Ap, up, low, pool)
  {
    var nCollapsed;
    adjP, up, low, nCollapsed := DownsampleGraph(adj, |V|, N, A, score);
    ColumnsAreParents(up, low, |V|);
    Vp, Np, Ap := CoarseSamples(V, N, A, up, pool);
  }

  /** Colours one level with the colourer the mode selects
      (src/hierarchy.cpp:415-418, 440-443): the deterministic colourer
      always succeeds, the parallel one fails exactly when the greedy
      colouring needs a 255th colour; the phases are the level's schedule. */
  method ColorLevel(adj: Adjacency, n: nat, deterministic: bool, shuffle: nat -> seq<nat>, draws: nat -> seq<nat>)
    returns (r: Result<seq<seq<nat>>, ParallelColoring.Fault>)
    requires WellFormed(adj, n) && OrdersFor(shuffle, draws, n) && Shuffles(shuffle, n)
    ensures r.Success? <==> deterministic || Coloured(adj, n, deterministic, shuffle, draws).k <= ParallelColoring.MAX_COLORS
    ensures r.Success? ==> r.value == Schedule(adj, n, deterministic, shuffle, draws)
    ensures r.Failure? <==> !deterministic && Overflows(adj, n, shuffle, draws)
  {
    if deterministic {
      var phases := ColorGraphDeterministic(adj, n, shuffle(n));
      r := Success(phases);
    } else {
      var perm, res := ParallelColoring.ColorGraph(adj, n, draws(n));
      r := res;
    }
  }

  /** n empty rows: the unset constraint matrices of n levels. */
  function Unset<T>(n: nat): (r: seq<seq<T>>)
    ensures |r| == n && forall l :: 0 <= l < n ==> r[l] == []
  {
    if n == 0 then [] else Unset(n - 1) + [[]]
  }

  /** One pass of build (src/hierarchy.cpp:430-458): downsample the top
      level, colour the result and push both. The level computed is
      returned as ghost outputs. On success the stack gains exactly that
      level and keeps its shape; the pass fails exactly when the parallel
      colourer gives up on that level, and then leaves the stack as it was. */
  method Pass(lv: Levels, deterministic: bool, score: ScoreFn, pool: Pool,
              shuffle: nat -> seq<nat>, draws: nat -> seq<nat>)
    returns (next: Levels, r: Result<(), ParallelColoring.Fault>,
             ghost adjP: Adjacency, ghost Vp: seq<Vec3>, ghost Np: seq<Vec3>, ghost Ap: seq<real>,
             ghost up: seq<Upper>, ghost low: seq<nat>)
    requires |lv.V| > 0 && Built(lv, deterministic, pool, shuffle, draws)
    requires Colourable(lv.adj, lv.V, deterministic, shuffle, draws)
    requires forall n {:trigger OrdersFor(shuffle, draws, n)} :: OrdersFor(shuffle, draws, n)
    requires forall n {:trigger Shuffles(shuffle, n)} :: Shuffles(shuffle, n)
    ensures var t := |lv.V| - 1;
            Coarsens(lv.adj[t], lv.V[t], lv.N[t], lv.A[t], adjP, Vp, Np, Ap, up, low, pool)
    ensures r.Failure? <==> !deterministic && Overflows(adjP, |Vp|, shuffle, draws)
    ensures r.Failure? ==> next == lv
    ensures r.Success? ==> Built(next, deterministic, pool, shuffle, draws)
    ensures r.Success? ==> Colourable(next.adj, next.V, deterministic, shuffle, draws)
    ensures r.Success? ==> |next.V| == |lv.V| + 1 && next.adj[|lv.V|] == adjP && next.V[|lv.V|] == Vp
    ensures r.Success? ==> forall l :: 0 <= l < |lv.V| ==> next.V[l] == lv.V[l]
    ensures r.Success? ==> next.adj[0] == lv.adj[0] && next.N[0] == lv.N[0] && next.A[0] == lv.A[0]
  {
    var t := |lv.V| - 1;
    var cAdj, cV, cN, cA, cUp, cLow := NextLevel(lv.adj[t], lv.V[t], lv.N[t], lv.A[t], score, pool);
    adjP, Vp, Np, Ap, up, low := cAdj, cV, cN, cA, cUp, cLow;
    var ph := ColorLevel(cAdj, |cV|, deterministic, shuffle, draws);
    if ph.Failure? {
      next, r := lv, Failure(ph.error);
      return;
    }
    assert OrdersFor(shuffle, draws, |Vp|) && Shuffles(shuffle, |Vp|);
    next := Levels(lv.phases + [ph.value], lv.adj + [cAdj], lv.V + [cV], lv.N + [cN], lv.A + [cA],
                   lv.toUpper + [cUp], lv.toLower + [cLow], lv.totalSize + |cV|);
    BuiltPush(lv, deterministic, pool, shuffle, draws, ph.value, adjP, Vp, Np, Ap, up, low);
    ColourablePush(lv.adj, lv.V, adjP, Vp, deterministic, shuffle, draws);
    assert forall l :: 0 <= l < |lv.V| ==> next.V[l] == lv.V[l];
    r := Success(());
  }

  /** The passes of build (src/hierarchy.cpp:429-459) on a stack holding
      the coloured level 0: at least one and at most maxDepth passes,
      stopping right after pushing a one-vertex level. A pass fails exactly
      when the parallel colourer gives up on the level it computed (returned
      as ghost outputs); that ends the passes and leaves the levels pushed
      so far, every one of which was coloured. */
  method Deepen(seed: Levels, deterministic: bool, maxDepth: nat, score: ScoreFn, pool: Pool,
                shuffle: nat -> seq<nat>, draws: nat -> seq<nat>)
    returns (lv: Levels, r: Result<(), ParallelColoring.Fault>,
             ghost adjF: Adjacency, ghost VF: seq<Vec3>, ghost NF: seq<Vec3>, ghost AF: seq<real>,
             ghost upF: seq<Upper>, ghost lowF: seq<nat>)
    requires |seed.V| == 1 && Built(seed, deterministic, pool, shuffle, draws)
    requires Colourable(seed.adj, seed.V, deterministic, shuffle, draws)
    requires forall n {:trigger OrdersFor(shuffle, draws, n)} :: OrdersFor(shuffle, draws, n)
    requires forall n {:trigger Shuffles(shuffle, n)} :: Shuffles(shuffle, n)
    ensures Built(lv, deterministic, pool, shuffle, draws)
    ensures Colourable(lv.adj, lv.V, deterministic, shuffle, draws)
    ensures 1 <= |lv.V| <= maxDepth + 1
    ensures lv.adj[0] == seed.adj[0] && lv.V[0] == seed.V[0] && lv.N[0] == seed.N[0] && lv.A[0] == seed.A[0]
    ensures r.Success? ==> |lv.V| == maxDepth + 1 || (|lv.V| >= 2 && |lv.V[|lv.V| - 1]| == 1)
    ensures r.Success? && maxDepth > 0 ==> |lv.V| >= 2
    ensures r.Failure? ==> !deterministic && |lv.V| <= maxDepth && (|lv.V| >= 2 ==> |lv.V[|lv.V| - 1]| != 1)
    ensures r.Failure? ==>
              var t := |lv.V| - 1;
              Coarsens(lv.adj[t], lv.V[t], lv.N[t], lv.A[t], adjF, VF, NF, AF, upF, lowF, pool)
              && Overflows(adjF, |VF|, shuffle, draws)
    ensures forall l :: 1 <= l < |lv.V| - 1 ==> |lv.V[l]| != 1
  {
    lv := seed;
    adjF, VF, NF, AF, upF, lowF := seed.adj[0], seed.V[0], seed.N[0], seed.A[0], [], [];
    for i := 0 to maxDepth
      invariant |lv.V| == i + 1 && Built(lv, deterministic, pool, shuffle, draws)
      invariant Colourable(lv.adj, lv.V, deterministic, shuffle, draws)
      invariant lv.adj[0] == seed.adj[0] && lv.V[0] == seed.V[0] && lv.N[0] == seed.N[0] && lv.A[0] == seed.A[0]
      invariant forall l :: 1 <= l < |lv.V| ==> |lv.V[l]| != 1
    {
      var next;
      next, r, adjF, VF, NF, AF, upF, lowF := Pass(lv, deterministic, score, pool, shuffle, draws);
      if r.Failure? {
        return;
      }
      lv := next;
      if |lv.V[|lv.V| - 1]| == 1 {
        break;
      }
    }
    r := Success(());
  }

  /** The level stack build produces from level 0 (src/hierarchy.cpp:413-459):
      level 0 coloured, then the passes. Colouring level 0 fails exactly
      when the parallel colourer gives up on it, and then leaves the seed,
      without phases; a later failure is that of a pass, as in Deepen. */
  method BuildStack(seed: Levels, deterministic: bool, maxDepth: nat, score: ScoreFn, pool: Pool,
                    shuffle: nat -> seq<nat>, draws: nat -> seq<nat>)
    returns (lv: Levels, r: Result<(), ParallelColoring.Fault>,
             ghost adjF: Adjacency, ghost VF: seq<Vec3>, ghost NF: seq<Vec3>, ghost AF: seq<real>,
             ghost upF: seq<Upper>, ghost lowF: seq<nat>)
    requires |seed.adj| == 1 && |seed.V| == 1 && |seed.N| == 1 && |seed.A| == 1
    requires LevelOk(seed.adj[0], seed.V[0], seed.N[0], seed.A[0])
    requires seed.phases == [] && seed.toUpper == [] && seed.toLower == []
    requires forall n {:trigger OrdersFor(shuffle, draws, n)} :: OrdersFor(shuffle, draws, n)
    requires forall n {:trigger Shuffles(shuffle, n)} :: Shuffles(shuffle, n)
    ensures r.Failure? ==> !deterministic
    ensures |lv.phases| == 0 <==> !deterministic && Overflows(seed.adj[0], |seed.V[0]|, shuffle, draws)
    ensures |lv.phases| == 0 ==> r.Failure? && lv == seed
    ensures |lv.phases| > 0 ==> Built(lv, deterministic, pool, shuffle, draws)
    ensures |lv.phases| > 0 ==> Colourable(lv.adj, lv.V, deterministic, shuffle, draws)
    ensures 1 <= |lv.V| <= maxDepth + 1
    ensures lv.adj[0] == seed.adj[0] && lv.V[0] == seed.V[0] && lv.N[0] == seed.N[0] && lv.A[0] == seed.A[0]
    ensures r.Success? ==> |lv.V| == maxDepth + 1 || (|lv.V| >= 2 && |lv.V[|lv.V| - 1]| == 1)
    ensures r.Success? && maxDepth > 0 ==> |lv.V| >= 2
    ensures r.Failure? && |lv.phases| > 0 ==>
              |lv.V| <= maxDepth && (|lv.V| >= 2 ==> |lv.V[|lv.V| - 1]| != 1)
    ensures r.Failure? && |lv.phases| > 0 ==>
              var t := |lv.V| - 1;
              Coarsens(lv.adj[t], lv.V[t], lv.N[t], lv.A[t], adjF, VF, NF, AF, upF, lowF, pool)
              && Overflows(adjF, |VF|, shuffle, draws)
    ensures forall l :: 1 <= l < |lv.V| - 1 ==> |lv.V[l]| != 1
  {
    var first := ColorLevel(seed.adj[0], |seed.V[0]|, deterministic, shuffle, draws);
    if first.Failure? {
      adjF, VF, NF, AF, upF, lowF := seed.adj[0], seed.V[0], seed.N[0], seed.A[0], [], [];
      lv, r := seed, Failure(first.error);
      return;
    }
    assert OrdersFor(shuffle, draws, |seed.V[0]|);
    BuiltBase(deterministic, pool, shuffle, draws, first.value, seed.adj[0], seed.V[0], seed.N[0], seed.A[0]);
    assert [seed.adj[0]] == seed.adj && [seed.V[0]] == seed.V && [seed.N[0]] == seed.N && [seed.A[0]] == seed.A;
    lv, r, adjF, VF, NF, AF, upF, lowF :=
      Deepen(Levels([first.value], seed.adj, seed.V, seed.N, seed.A, [], [], |seed.V[0]|),
             deterministic, maxDepth, score, pool, shuffle, draws);
  }

  /** The constraint fields of the hierarchy, one entry per level:
      orientation and position constraints and their weights. */
  datatype Constraints = Constraints(CQ: seq<seq<Vec3>>, CQw: seq<seq<real>>, CO: seq<seq<Vec3>>, COw: seq<seq<real>>)

  /** n zero weights. */
  function Zeros(n: nat): (r: seq<real>)
    ensures |r| == n && forall i :: 0 <= i < n ==> r[i] == 0.0
  {
    if n == 0 then [] else Zeros(n - 1) + [0.0]
  }

  /** A 3 x n matrix resized to n columns: kept when it already has n
      columns, otherwise n zero columns. */
  function Resized(m: seq<Vec3>, n: nat): (r: seq<Vec3>)
    ensures |r| == n && (|m| == n ==> r == m)
  {
    if |m| == n then m else Filled(n)
  }

  /** n zero columns. */
  function Filled(n: nat): (r: seq<Vec3>)
    ensures |r| == n && forall i :: 0 <= i < n ==> r[i] == Zero
  {
    if n == 0 then [] else Filled(n - 1) + [Zero]
  }

  /** Every constraint entry of every level has that level's size. */
  ghost predicate Sized(c: Constraints, V: seq<seq<Vec3>>) {
    && |c.CQ| == |V| && |c.CQw| == |V| && |c.CO| == |V| && |c.COw| == |V|
    && forall l :: 0 <= l < |V| ==>
         |c.CQ[l]| == |V[l]| && |c.CQw[l]| == |V[l]| && |c.CO[l]| == |V[l]| && |c.COw[l]| == |V[l]|
  }

  /** Each level's orientation field has one column per vertex. */
  ghost predicate FieldSized(Q: seq<seq<Vec3>>, V: seq<seq<Vec3>>) {
    |Q| == |V| && forall l :: 0 <= l < |V| ==> |Q[l]| == |V[l]|
  }

  /** Every coarse orientation is the solution propagated from the level
      below it: the tangent-projected, normalised orientation of its
      column's vertices. */
  ghost predicate SolutionPropagated(Q: seq<seq<Vec3>>, lv: Levels, orient: Orient, ops: Operators)
    requires Stack(lv.adj, lv.V, lv.N, lv.A, lv.toUpper, lv.toLower) && FieldSized(Q, lv.V)
  {
    forall l :: 0 <= l < |lv.toUpper| ==>
      Solved(orient, ops, lv.toUpper[l], Q[l], lv.N[l], lv.N[l + 1], Q[l + 1])
  }

  /** Every vertex of level k + 1 has the orientation and position
      constraints its column at level k determines, with position weight 0
      or 1. */
  ghost predicate ConstrainedAt(c: Constraints, lv: Levels, k: nat, orient: Orient, place: Place, ops: Operators, scale: real)
    requires Stack(lv.adj, lv.V, lv.N, lv.A, lv.toUpper, lv.toLower) && Sized(c, lv.V)
    requires k < |lv.toUpper| && NonNegative(c.COw[k])
  {
    Constrained(orient, place, ops, scale, lv.toUpper[k], lv.V[k], lv.N[k],
                c.CQ[k], c.CQw[k], c.CO[k], c.COw[k], lv.V[k + 1], lv.N[k + 1],
                c.CQ[k + 1], c.CQw[k + 1], c.CO[k + 1], c.COw[k + 1])
  }

  /** Every coarse vertex's orientation and position constraints are the
      ones its column's constraints determine, with position weights 0 or 1. */
  ghost predicate ConstraintsPropagated(c: Constraints, lv: Levels, orient: Orient, place: Place, ops: Operators, scale: real)
    requires Stack(lv.adj, lv.V, lv.N, lv.A, lv.toUpper, lv.toLower) && Sized(c, lv.V)
    requires forall l :: 0 <= l < |lv.V| ==> NonNegative(c.COw[l])
  {
    forall k :: 0 <= k < |lv.toUpper| ==> ConstrainedAt(c, lv, k, orient, place, ops, scale)
  }

  /** The level loop of propagateSolution (src/hierarchy.cpp:558-590):
      from the finest level up, each coarser level's orientations are
      overwritten with the solutions propagated from the level below, which
      has already been updated; level 0 keeps its orientations. */
  method SolveLevels(lv: Levels, Q: seq<seq<Vec3>>, orient: Orient, ops: Operators) returns (q: seq<seq<Vec3>>)
    requires Stack(lv.adj, lv.V, lv.N, lv.A, lv.toUpper, lv.toLower) && FieldSized(Q, lv.V) && |lv.V| > 0
    ensures FieldSized(q, lv.V) && q[0] == Q[0]
    ensures SolutionPropagated(q, lv, orient, ops)
  {
    q := Q;
    for l := 0 to |lv.V| - 1
      invariant FieldSized(q, lv.V) && q[0] == Q[0]
      invariant forall k :: 0 <= k < l ==>
                  Solved(orient, ops, lv.toUpper[k], q[k], lv.N[k], lv.N[k + 1], q[k + 1])
    {
      ColumnsAreParents(lv.toUpper[l], lv.toLower[l], |lv.V[l]|);
      var next := SolveLevel(orient, ops, lv.toUpper[l], q[l], lv.N[l], lv.N[l + 1], q[l + 1]);
      q := q[l + 1 := next];
    }
  }

  /** The level loop of propagateConstraints (src/hierarchy.cpp:620-701):
      from the finest level up, each coarser level's constraints are
      overwritten with the ones the level below, already updated,
      determines; level 0 keeps its constraints and every coarser position
      weight is 0 or 1. */
  method ConstrainLevels(lv: Levels, c0: Constraints, orient: Orient, place: Place, ops: Operators, scale: real)
    returns (c: Constraints)
    requires Stack(lv.adj, lv.V, lv.N, lv.A, lv.toUpper, lv.toLower) && Sized(c0, lv.V) && |lv.V| > 0
    requires NonNegative(c0.COw[0])
    ensures Sized(c, lv.V) && forall l :: 0 <= l < |lv.V| ==> NonNegative(c.COw[l])
    ensures c.CQ[0] == c0.CQ[0] && c.CQw[0] == c0.CQw[0] && c.CO[0] == c0.CO[0] && c.COw[0] == c0.COw[0]
    ensures ConstraintsPropagated(c, lv, orient, place, ops, scale)
  {
    c := c0;
    for l := 0 to |lv.V| - 1
      invariant Sized(c, lv.V) && forall k :: 0 <= k <= l ==> NonNegative(c.COw[k])
      invariant c.CQ[0] == c0.CQ[0] && c.CQw[0] == c0.CQw[0] && c.CO[0] == c0.CO[0] && c.COw[0] == c0.COw[0]
      invariant forall k :: 0 <= k < l ==> ConstrainedAt(c, lv, k, orient, place, ops, scale)
    {
      ColumnsAreParents(lv.toUpper[l], lv.toLower[l], |lv.V[l]|);
      var CQn, CQwn, COn, COwn :=
        ConstrainLevel(orient, place, ops, scale, lv.toUpper[l], lv.V[l], lv.N[l],
                       c.CQ[l], c.CQw[l], c.CO[l], c.COw[l], lv.V[l + 1], lv.N[l + 1],
                       c.CQ[l + 1], c.CQw[l + 1], c.CO[l + 1], c.COw[l + 1]);
      ghost var prev := c;
      c := Constraints(c.CQ[l + 1 := CQn], c.CQw[l + 1 := CQwn], c.CO[l + 1 := COn], c.COw[l + 1 := COwn]);
      ConstrainedPush(prev, c, lv, l, orient, place, ops, scale);
    }
  }

  /** Overwriting level l + 1 with the constraints level l determines
      keeps every level's sizes and the propagation below l, and adds it at
      level l. */
  lemma ConstrainedPush(prev: Constraints, c: Constraints, lv: Levels, l: nat,
                        orient: Orient, place: Place, ops: Operators, scale: real)
    requires Stack(lv.adj, lv.V, lv.N, lv.A, lv.toUpper, lv.toLower) && Sized(prev, lv.V) && l < |lv.toUpper|
    requires forall k :: 0 <= k <= l ==> NonNegative(prev.COw[k])
    requires forall k :: 0 <= k < l ==> ConstrainedAt(prev, lv, k, orient, place, ops, scale)
    requires |c.CQ| == |c.CQw| == |c.CO| == |c.COw| == |lv.V|
    requires c.CQ == prev.CQ[l + 1 := c.CQ[l + 1]] && c.CQw == prev.CQw[l + 1 := c.CQw[l + 1]]
    requires c.CO == prev.CO[l + 1 := c.CO[l + 1]] && c.COw == prev.COw[l + 1 := c.COw[l + 1]]
    requires Constrained(orient, place, ops, scale, lv.toUpper[l], lv.V[l], lv.N[l],
                         prev.CQ[l], prev.CQw[l], prev.CO[l], prev.COw[l], lv.V[l + 1], lv.N[l + 1],
                         c.CQ[l + 1], c.CQw[l + 1], c.CO[l + 1], c.COw[l + 1])
    requires NonNegative(c.COw[l + 1])
    ensures Sized(c, lv.V) && forall k :: 0 <= k <= l + 1 ==> NonNegative(c.COw[k])
    ensures forall k :: 0 <= k <= l ==> ConstrainedAt(c, lv, k, orient, place, ops, scale)
  {
    assert ConstrainedAt(c, lv, l, orient, place, ops, scale);
    forall k | 0 <= k < l
      ensures ConstrainedAt(c, lv, k, orient, place, ops, scale)
    {
      assert ConstrainedAt(prev, lv, k, orient, place, ops, scale);
    }
  }

  class MultiResolutionHierarchy {
    /** Phases, adjacency, positions, normals, areas, index maps and total size. */
    var levels: Levels
    var Q: seq<seq<Vec3>>
    var O: seq<seq<Vec3>>
    var constraints: Constraints
    var scale: real
    var iterationsQ: int
    var iterationsO: int
    var frozenQ: bool
    var frozenO: bool

    /** The level stack has its shape: one entry per level in every
        per-level sequence, one fewer index map, and the total size is the
        sum of the level sizes. */
    ghost predicate Valid()
      reads this
    {
      && Stack(levels.adj, levels.V, levels.N, levels.A, levels.toUpper, levels.toLower)
      && |levels.phases| == |levels.V| && levels.totalSize == TotalSize(levels.V)
      && |constraints.CQ| == |levels.V| && |constraints.CQw| == |levels.V|
      && |constraints.CO| == |levels.V| && |constraints.COw| == |levels.V|
    }

    /** The constructor (src/hierarchy.cpp:391-410): no levels, no
        iterations, zero scale, nothing frozen. */
    constructor()
      ensures Valid() && levels.V == [] && Q == [] && O == []
      ensures iterationsQ == -1 && iterationsO == -1 && scale == 0.0 && levels.totalSize == 0 && !frozenO && !frozenQ
    {
      levels := Levels([], [], [], [], [], [], [], 0);
      Q, O := [], [];
      constraints := Constraints([], [], [], []);
      iterationsQ, iterationsO := -1, -1;
      scale := 0.0;
      frozenO, frozenQ := false, false;
    }

    /** Level 0 has been supplied and nothing else: the state build starts from. */
    ghost predicate Seeded()
      reads this
    {
      && |levels.adj| == 1 && |levels.V| == 1 && |levels.N| == 1 && |levels.A| == 1
      && LevelOk(levels.adj[0], levels.V[0], levels.N[0], levels.A[0])
      && levels.phases == [] && levels.toUpper == [] && levels.toLower == []
      && constraints == Constraints([], [], [], [])
    }

    /** build (src/hierarchy.cpp:412-463). Level 0 is coloured, then each
        pass downsamples the top level, colours the result and pushes it
        with one empty constraint entry per level: at least one and at
        most maxDepth passes, stopping right after pushing a one-vertex
        level. The deterministic mode never fails; the parallel colourer
        fails exactly when level 0, or the coarsening of the top level
        (returned as ghost outputs), needs a 255th colour. A failure keeps
        the levels pushed so far and skips the final reset of the
        iteration counters and freeze flags. */
    method Build(deterministic: bool, maxDepth: nat, score: ScoreFn, pool: Pool,
                 shuffle: nat -> seq<nat>, draws: nat -> seq<nat>)
      returns (r: Result<(), ParallelColoring.Fault>,
               ghost adjF: Adjacency, ghost VF: seq<Vec3>, ghost NF: seq<Vec3>, ghost AF: seq<real>,
               ghost upF: seq<Upper>, ghost lowF: seq<nat>)
      requires Seeded()
      requires forall n {:trigger OrdersFor(shuffle, draws, n)} :: OrdersFor(shuffle, draws, n)
      requires forall n {:trigger Shuffles(shuffle, n)} :: Shuffles(shuffle, n)
      modifies this
      ensures r.Failure? ==> !deterministic
      ensures levels.phases == [] <==> !deterministic && Overflows(old(levels.adj[0]), |old(levels.V[0])|, shuffle, draws)
      ensures r.Success? || |levels.phases| > 0 ==>
                Valid() && Built(levels, deterministic, pool, shuffle, draws)
                && Colourable(levels.adj, levels.V, deterministic, shuffle, draws)
      ensures r.Success? || |levels.phases| > 0 ==>
                forall l :: 0 <= l < |levels.V| ==>
                  constraints.CQ[l] == [] && constraints.CQw[l] == [] && constraints.CO[l] == [] && constraints.COw[l] == []
      ensures r.Failure? && |levels.phases| == 0 ==> levels == old(levels) && constraints == old(constraints)
      ensures r.Failure? && |levels.phases| > 0 ==>
                |levels.V| <= maxDepth && (|levels.V| >= 2 ==> |levels.V[|levels.V| - 1]| != 1)
      ensures r.Failure? && |levels.phases| > 0 ==>
                var t := |levels.V| - 1;
                Coarsens(levels.adj[t], levels.V[t], levels.N[t], levels.A[t], adjF, VF, NF, AF, upF, lowF, pool)
                && Overflows(adjF, |VF|, shuffle, draws)
      ensures 1 <= |levels.V| <= maxDepth + 1
      ensures levels.adj[0] == old(levels.adj[0]) && levels.V[0] == old(levels.V[0])
      ensures levels.N[0] == old(levels.N[0]) && levels.A[0] == old(levels.A[0])
      ensures r.Success? ==> |levels.V| == maxDepth + 1 || (|levels.V| >= 2 && |levels.V[|levels.V| - 1]| == 1)
      ensures r.Success? && maxDepth > 0 ==> |levels.V| >= 2
      ensures forall l :: 1 <= l < |levels.V| - 1 ==> |levels.V[l]| != 1
      ensures Q == old(Q) && O == old(O) && scale == old(scale)
      ensures r.Success? ==> iterationsQ == -1 && iterationsO == -1 && !frozenO && !frozenQ
      ensures r.Failure? ==> iterationsQ == old(iterationsQ) && iterationsO == old(iterationsO)
                             && frozenO == old(frozenO) && frozenQ == old(frozenQ)
    {
      var lv;
      lv, r, adjF, VF, NF, AF, upF, lowF := BuildStack(levels, deterministic, maxDepth, score, pool, shuffle, draws);
      if |lv.phases| == 0 {
        return;
      }
      ghost var t := |lv.V| - 1;
      assert r.Failure? ==> Coarsens(lv.adj[t], lv.V[t], lv.N[t], lv.A[t], adjF, VF, NF, AF, upF, lowF, pool);
      Install(lv, r.Success?);
      assert levels.adj[t] == lv.adj[t] && levels.V[t] == lv.V[t] && levels.N[t] == lv.N[t] && levels.A[t] == lv.A[t];
    }

    /** Stores the level stack build produced, with one empty constraint
        entry per level; at the end of a successful build there are no
        solver iterations yet and nothing is frozen, while a failed build
        leaves the counters and flags as they were. */
    method Install(lv: Levels, finished: bool)
      modifies this
      ensures levels == lv && constraints == Constraints(Unset(|lv.V|), Unset(|lv.V|), Unset(|lv.V|), Unset(|lv.V|))
      ensures Q == old(Q) && O == old(O) && scale == old(scale)
      ensures finished ==> iterationsQ == -1 && iterationsO == -1 && !frozenO && !frozenQ
      ensures !finished ==> iterationsQ == old(iterationsQ) && iterationsO == old(iterationsO)
                            && frozenO == old(frozenO) && frozenQ == old(frozenQ)
    {
      var n := |lv.V|;
      levels := lv;
      constraints := Constraints(Unset(n), Unset(n), Unset(n), Unset(n));
      if finished {
        iterationsQ, iterationsO := -1, -1;
        frozenO, frozenQ := false, false;
      }
    }

    /** clearConstraints (src/hierarchy.cpp:529-542): with no levels,
        nothing changes; otherwise every level's constraint matrices are
        resized to the level's size and its weights are zeroed, so no
        vertex is constrained. */
    method ClearConstraints()
      requires Valid()
      modifies this
      ensures Valid() && levels == old(levels)
      ensures |levels.V| == 0 ==> constraints == old(constraints)
      ensures |levels.V| > 0 ==> Sized(constraints, levels.V)
      ensures |levels.V| > 0 ==>
                forall l :: 0 <= l < |levels.V| ==>
                  && constraints.CQ[l] == Resized(old(constraints.CQ[l]), |levels.V[l]|)
                  && constraints.CO[l] == Resized(old(constraints.CO[l]), |levels.V[l]|)
                  && constraints.CQw[l] == Zeros(|levels.V[l]|) && constraints.COw[l] == Zeros(|levels.V[l]|)
      ensures Q == old(Q) && O == old(O) && scale == old(scale)
      ensures iterationsQ == old(iterationsQ) && iterationsO == old(iterationsO)
      ensures frozenQ == old(frozenQ) && frozenO == old(frozenO)
    {
      var V := levels.V;
      if |V| == 0 {
        return;
      }
      var c := constraints;
      for i := 0 to |V|
        invariant |c.CQ| == |V| && |c.CQw| == |V| && |c.CO| == |V| && |c.COw| == |V|
        invariant forall l :: 0 <= l < i ==>
                    && c.CQ[l] == Resized(constraints.CQ[l], |V[l]|) && c.CO[l] == Resized(constraints.CO[l], |V[l]|)
                    && c.CQw[l] == Zeros(|V[l]|) && c.COw[l] == Zeros(|V[l]|)
      {
        c := Constraints(c.CQ[i := Resized(constraints.CQ[i], |V[i]|)], c.CQw[i := Zeros(|V[i]|)],
                         c.CO[i := Resized(constraints.CO[i], |V[i]|)], c.COw[i := Zeros(|V[i]|)]);
      }
      constraints := c;
    }

    /** propagateSolution (src/hierarchy.cpp:544-590): an unsupported
        symmetry order throws before anything changes; otherwise, from the
        finest level up, every coarse vertex's orientation is overwritten
        with the solution propagated from its column, so each level's
        field follows from the one below it. */
    method PropagateSolution(rosy: int, ops: Operators) returns (r: Result<(), SymmetryFault>)
      requires Valid() && FieldSized(Q, levels.V)
      modifies this
      ensures Valid() && levels == old(levels)
      ensures r.Success? <==> ParseRoSy(rosy).Success?
      ensures r.Failure? ==> Q == old(Q)
      ensures FieldSized(Q, levels.V) && (|Q| > 0 ==> Q[0] == old(Q[0]))
      ensures r.Success? ==> SolutionPropagated(Q, levels, OrientFor(ops, ParseRoSy(rosy).value), ops)
      ensures constraints == old(constraints) && O == old(O) && scale == old(scale)
      ensures iterationsQ == old(iterationsQ) && iterationsO == old(iterationsO)
      ensures frozenQ == old(frozenQ) && frozenO == old(frozenO)
    {
      var sym := ParseRoSy(rosy);
      if sym.Failure? {
        return Failure(sym.error);
      }
      r := Success(());
      if |levels.V| == 0 {
        return;
      }
      Q := SolveLevels(levels, Q, OrientFor(ops, sym.value), ops);
    }

    /** propagateConstraints (src/hierarchy.cpp:594-703): with no levels
        nothing happens, not even the symmetry checks; an unsupported
        orientation or position symmetry throws before anything changes;
        otherwise, from the finest level up, every coarse vertex's
        constraints are overwritten with the ones its column determines,
        so level 0 keeps its constraints and every coarser position weight
        is 0 or 1. */
    method PropagateConstraints(rosy: int, posy: int, ops: Operators) returns (r: Result<(), SymmetryFault>)
      requires Valid() && Sized(constraints, levels.V)
      requires |levels.V| > 0 ==> NonNegative(constraints.COw[0])
      modifies this
      ensures Valid() && levels == old(levels)
      ensures r.Failure? <==> |levels.V| > 0 && (ParseRoSy(rosy).Failure? || ParsePoSy(posy).Failure?)
      ensures r.Failure? || |levels.V| == 0 ==> constraints == old(constraints)
      ensures Sized(constraints, levels.V)
      ensures |levels.V| > 0 ==> constraints.CQ[0] == old(constraints.CQ[0]) && constraints.CQw[0] == old(constraints.CQw[0])
      ensures |levels.V| > 0 ==> constraints.CO[0] == old(constraints.CO[0]) && constraints.COw[0] == old(constraints.COw[0])
      ensures r.Success? ==> forall l :: 0 <= l < |levels.V| ==> NonNegative(constraints.COw[l])
      ensures r.Success? && |levels.V| > 0 ==>
                ConstraintsPropagated(constraints, levels, OrientFor(ops, ParseRoSy(rosy).value),
                                      PlaceFor(ops, ParsePoSy(posy).value), ops, scale)
      ensures Q == old(Q) && O == old(O) && scale == old(scale)
      ensures iterationsQ == old(iterationsQ) && iterationsO == old(iterationsO)
      ensures frozenQ == old(frozenQ) && frozenO == old(frozenO)
    {
      var lv := levels;
      if |lv.V| == 0 {
        return Success(());
      }
      var rs := ParseRoSy(rosy);
      if rs.Failure? {
        return Failure(rs.error);
      }
      var ps := ParsePoSy(posy);
      if ps.Failure? {
        return Failure(ps.error);
      }
      r := Success(());
      constraints := ConstrainLevels(lv, constraints, OrientFor(ops, rs.value), PlaceFor(ops, ps.value), ops, scale);
    }
  }
}
