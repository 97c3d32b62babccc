/**
  The level stack of the multi-resolution hierarchy as values: the shape
  every level sequence keeps, each level the downsampling of the one below
  it, each level's phases the schedule of its greedy colouring, and the
  lemmas that pushing a new level keeps all three.
 */
module LevelStack {
  import opened Graph
  import opened Vectors
  import opened Matching
  import opened CoarseAdjacency
  import opened Coloring
  import opened Downsample
  import ParallelColoring

  /** One level's adjacency, positions, normals and areas agree in size,
      its adjacency is well formed and loop free, and its ids fit 32 bits. */
  ghost predicate LevelOk(adj: Adjacency, V: seq<Vec3>, N: seq<Vec3>, A: seq<real>) {
    && WellFormed(adj, |V|) && LoopFree(adj, |V|)
    && |N| == |V| && |A| == |V| && |V| < INVALID
  }

  /** The per-level sequences have one entry per level, the index maps one
      fewer, every level is well formed, and each pair of index maps links
      a level to the next one. */
  ghost predicate Stack(adj: seq<Adjacency>, V: seq<seq<Vec3>>, N: seq<seq<Vec3>>, A: seq<seq<real>>,
                        toUpper: seq<seq<Upper>>, toLower: seq<seq<nat>>)
  {
    && |adj| == |V| && |N| == |V| && |A| == |V|
    && |toUpper| == |toLower| == (if |V| == 0 then 0 else |V| - 1)
    && (forall l :: 0 <= l < |V| ==> LevelOk(adj[l], V[l], N[l], A[l]))
    && (forall l :: 0 <= l < |toUpper| ==>
          IndexMapsInverse(toUpper[l], toLower[l], |V[l]|) && |toUpper[l]| == |V[l + 1]|)
  }

  /** The sum of the level sizes. */
  function TotalSize(V: seq<seq<Vec3>>): nat {
    if V == [] then 0 else TotalSize(V[..|V| - 1]) + |V[|V| - 1]|
  }

  /** Both colourers' random orders for a level of n vertices are
      usable: the deterministic shuffle lists n vertex ids, and the draws
      of the parallel shuffle are in range. */
  ghost predicate OrdersFor(shuffle: nat -> seq<nat>, draws: nat -> seq<nat>, n: nat) {
    |shuffle(n)| == n && InRangeSeq(shuffle(n), n) && ParallelColoring.Draws(draws(n), n)
  }

  /** The deterministic shuffle of a level of n vertices is a permutation
      of its vertex ids. */
  ghost predicate Shuffles(shuffle: nat -> seq<nat>, n: nat) {
    IsPermutation(shuffle(n), n)
  }

  /** The order in which a level of n vertices is coloured. */
  ghost function Order(n: nat, deterministic: bool, shuffle: nat -> seq<nat>, draws: nat -> seq<nat>): (r: seq<nat>)
    requires OrdersFor(shuffle, draws, n)
    ensures |r| == n && InRangeSeq(r, n)
  {
    ParallelColoring.ShuffledIsPermutation(n, draws(n), n);
    if deterministic then shuffle(n) else ParallelColoring.Shuffled(n, draws(n), n)
  }

  /** Either colourer visits every vertex of the level exactly once. */
  lemma OrderIsPermutation(n: nat, deterministic: bool, shuffle: nat -> seq<nat>, draws: nat -> seq<nat>)
    requires OrdersFor(shuffle, draws, n) && Shuffles(shuffle, n)
    ensures IsPermutation(Order(n, deterministic, shuffle, draws), n)
  {
    ParallelColoring.ShuffledIsPermutation(n, draws(n), n);
  }

  /** The greedy colouring of a level in that order. */
  ghost function Coloured(adj: Adjacency, n: nat, deterministic: bool, shuffle: nat -> seq<nat>, draws: nat -> seq<nat>): Paint
    requires WellFormed(adj, n) && OrdersFor(shuffle, draws, n)
  {
    FirstFit(NeighborLists(adj, n), Order(n, deterministic, shuffle, draws), n)
  }

  /** The phases of a level: one per colour of its greedy colouring. */
  ghost function Schedule(adj: Adjacency, n: nat, deterministic: bool, shuffle: nat -> seq<nat>, draws: nat -> seq<nat>): seq<seq<nat>>
    requires WellFormed(adj, n) && OrdersFor(shuffle, draws, n)
  {
    var p := Coloured(adj, n, deterministic, shuffle, draws);
    PhasesUpTo(p.col, p.k, n)
  }

  /** The parallel colourer gives up on a level of n vertices: its greedy
      colouring in the shuffled order needs more than MAX_COLORS colours. */
  ghost predicate Overflows(adj: Adjacency, n: nat, shuffle: nat -> seq<nat>, draws: nat -> seq<nat>) {
    WellFormed(adj, n) && OrdersFor(shuffle, draws, n)
    && Coloured(adj, n, false, shuffle, draws).k > ParallelColoring.MAX_COLORS
  }

  /** No level of the stack makes the mode's colourer give up. */
  ghost predicate Colourable(adj: seq<Adjacency>, V: seq<seq<Vec3>>, deterministic: bool,
                             shuffle: nat -> seq<nat>, draws: nat -> seq<nat>) {
    && |adj| == |V|
    && forall l {:trigger Overflows(adj[l], |V[l]|, shuffle, draws)} :: 0 <= l < |V| ==>
         deterministic || !Overflows(adj[l], |V[l]|, shuffle, draws)
  }

  /** Pushing a level the mode's colourer accepts keeps the stack colourable. */
  lemma ColourablePush(adj: seq<Adjacency>, V: seq<seq<Vec3>>, adjP: Adjacency, Vp: seq<Vec3>,
                       deterministic: bool, shuffle: nat -> seq<nat>, draws: nat -> seq<nat>)
    requires Colourable(adj, V, deterministic, shuffle, draws)
    requires deterministic || !Overflows(adjP, |Vp|, shuffle, draws)
    ensures Colourable(adj + [adjP], V + [Vp], deterministic, shuffle, draws)
  {
    forall l | 0 <= l < |V| + 1
      ensures deterministic || !Overflows((adj + [adjP])[l], |(V + [Vp])[l]|, shuffle, draws)
    {
      if l < |V| {
        assert (adj + [adjP])[l] == adj[l] && (V + [Vp])[l] == V[l];
      }
    }
  }

  /** Level (adjP, Vp, Np, Ap) is the downsampling of level (adj, V, N, A)
      through the index maps: no larger, strictly smaller when the finer
      level has a link, every merged pair is a finer link, each coarse list
      is the coarse list of its column, and each coarse vertex is its
      column's pooled sample. */
  ghost predicate Coarsens(adj: Adjacency, V: seq<Vec3>, N: seq<Vec3>, A: seq<real>,
                           adjP: Adjacency, Vp: seq<Vec3>, Np: seq<Vec3>, Ap: seq<real>,
                           up: seq<Upper>, low: seq<nat>, pool: Pool)
  {
    && LevelOk(adj, V, N, A) && LevelOk(adjP, Vp, Np, Ap)
    && IndexMapsInverse(up, low, |V|) && |up| == |Vp|
    && |Vp| <= |V| && (|adj.links| > 0 ==> |Vp| < |V|)
    && (forall c :: 0 <= c < |up| && up[c].second != INVALID ==> IsNeighbor(adj, |V|, up[c].first, up[c].second))
    && (forall c :: 0 <= c < |up| ==> IsCoarseList(Neighbors(adjP, |Vp|, c), adj, |V|, low, up[c], c))
    && (forall c :: 0 <= c < |up| ==> Sample(Vp[c], Np[c], Ap[c]) == Pooled(V, N, A, up[c], pool))
  }

  /** Each level above the first is the downsampling of the one below it. */
  ghost predicate Downsampled(adj: seq<Adjacency>, V: seq<seq<Vec3>>, N: seq<seq<Vec3>>, A: seq<seq<real>>,
                              toUpper: seq<seq<Upper>>, toLower: seq<seq<nat>>, pool: Pool)
    requires Stack(adj, V, N, A, toUpper, toLower)
  {
    forall l :: 0 <= l < |toUpper| ==> CoarsensAt(adj, V, N, A, toUpper, toLower, pool, l)
  }

  /** Level l + 1 of the stack is the downsampling of level l. */
  ghost predicate CoarsensAt(adj: seq<Adjacency>, V: seq<seq<Vec3>>, N: seq<seq<Vec3>>, A: seq<seq<real>>,
                             toUpper: seq<seq<Upper>>, toLower: seq<seq<nat>>, pool: Pool, l: nat) {
    && l + 1 < |adj| && l + 1 < |V| && l + 1 < |N| && l + 1 < |A| && l < |toUpper| && l < |toLower|
    && Coarsens(adj[l], V[l], N[l], A[l], adj[l + 1], V[l + 1], N[l + 1], A[l + 1], toUpper[l], toLower[l], pool)
  }

  /** Each level's phases are the schedule of its greedy colouring. */
  ghost predicate Scheduled(adj: seq<Adjacency>, V: seq<seq<Vec3>>, phases: seq<seq<seq<nat>>>,
                            deterministic: bool, shuffle: nat -> seq<nat>, draws: nat -> seq<nat>)
  {
    forall l :: 0 <= l < |V| ==> ScheduledAt(adj, V, phases, deterministic, shuffle, draws, l)
  }

  /** Level l's phases are the schedule of its greedy colouring. */
  ghost predicate ScheduledAt(adj: seq<Adjacency>, V: seq<seq<Vec3>>, phases: seq<seq<seq<nat>>>,
                              deterministic: bool, shuffle: nat -> seq<nat>, draws: nat -> seq<nat>, l: nat) {
    && l < |adj| && l < |V| && l < |phases|
    && WellFormed(adj[l], |V[l]|) && OrdersFor(shuffle, draws, |V[l]|)
    && phases[l] == Schedule(adj[l], |V[l]|, deterministic, shuffle, draws)
  }

  /** Pushing a well-formed level linked to the top one keeps the stack's shape. */
  lemma StackPush(adj: seq<Adjacency>, V: seq<seq<Vec3>>, N: seq<seq<Vec3>>, A: seq<seq<real>>,
                  toUpper: seq<seq<Upper>>, toLower: seq<seq<nat>>,
                  adjP: Adjacency, Vp: seq<Vec3>, Np: seq<Vec3>, Ap: seq<real>, up: seq<Upper>, low: seq<nat>)
    requires Stack(adj, V, N, A, toUpper, toLower) && |V| > 0
    requires LevelOk(adjP, Vp, Np, Ap) && IndexMapsInverse(up, low, |V[|V| - 1]|) && |up| == |Vp|
    ensures Stack(adj + [adjP], V + [Vp], N + [Np], A + [Ap], toUpper + [up], toLower + [low])
    ensures TotalSize(V + [Vp]) == TotalSize(V) + |Vp|
  {
    assert (V + [Vp])[..|V|] == V;
  }

  /** Pushing the downsampling of the top level keeps every level the
      downsampling of the one below it. */
  lemma DownsampledPush(adj: seq<Adjacency>, V: seq<seq<Vec3>>, N: seq<seq<Vec3>>, A: seq<seq<real>>,
                        toUpper: seq<seq<Upper>>, toLower: seq<seq<nat>>, pool: Pool,
                        adjP: Adjacency, Vp: seq<Vec3>, Np: seq<Vec3>, Ap: seq<real>, up: seq<Upper>, low: seq<nat>)
    requires Stack(adj, V, N, A, toUpper, toLower) && |V| > 0
    requires Downsampled(adj, V, N, A, toUpper, toLower, pool)
    requires var t := |V| - 1;
             Coarsens(adj[t], V[t], N[t], A[t], adjP, Vp, Np, Ap, up, low, pool)
    ensures Stack(adj + [adjP], V + [Vp], N + [Np], A + [Ap], toUpper + [up], toLower + [low])
    ensures Downsampled(adj + [adjP], V + [Vp], N + [Np], A + [Ap], toUpper + [up], toLower + [low], pool)
    ensures TotalSize(V + [Vp]) == TotalSize(V) + |Vp|
  {
    StackPush(adj, V, N, A, toUpper, toLower, adjP, Vp, Np, Ap, up, low);
    var adj', V', N', A' := adj + [adjP], V + [Vp], N + [Np], A + [Ap];
    var up', low' := toUpper + [up], toLower + [low];
    forall l | 0 <= l < |up'|
      ensures CoarsensAt(adj', V', N', A', up', low', pool, l)
    {
      if l + 1 < |V| {
        assert CoarsensAt(adj, V, N, A, toUpper, toLower, pool, l);
        assert adj'[l] == adj[l] && adj'[l + 1] == adj[l + 1] && V'[l] == V[l] && V'[l + 1] == V[l + 1];
        assert N'[l] == N[l] && N'[l + 1] == N[l + 1] && A'[l] == A[l] && A'[l + 1] == A[l + 1];
        assert up'[l] == toUpper[l] && low'[l] == toLower[l];
      } else {
        assert adj'[l] == adj[l] && adj'[l + 1] == adjP && V'[l] == V[l] && V'[l + 1] == Vp;
        assert N'[l] == N[l] && N'[l + 1] == Np && A'[l] == A[l] && A'[l + 1] == Ap;
        assert up'[l] == up && low'[l] == low;
      }
    }
  }

  /** Pushing a level with its schedule keeps every level scheduled. */
  lemma ScheduledPush(adj: seq<Adjacency>, V: seq<seq<Vec3>>, phases: seq<seq<seq<nat>>>,
                      deterministic: bool, shuffle: nat -> seq<nat>, draws: nat -> seq<nat>,
                      adjP: Adjacency, Vp: seq<Vec3>, ph: seq<seq<nat>>)
    requires |adj| == |V| == |phases| && forall l :: 0 <= l < |V| ==> WellFormed(adj[l], |V[l]|)
    requires Scheduled(adj, V, phases, deterministic, shuffle, draws)
    requires WellFormed(adjP, |Vp|) && OrdersFor(shuffle, draws, |Vp|)
    requires ph == Schedule(adjP, |Vp|, deterministic, shuffle, draws)
    ensures forall l :: 0 <= l < |V| + 1 ==> WellFormed((adj + [adjP])[l], |(V + [Vp])[l]|)
    ensures Scheduled(adj + [adjP], V + [Vp], phases + [ph], deterministic, shuffle, draws)
  {
    var adj', V', phases' := adj + [adjP], V + [Vp], phases + [ph];
    forall l | 0 <= l < |V'|
      ensures WellFormed(adj'[l], |V'[l]|)
      ensures ScheduledAt(adj', V', phases', deterministic, shuffle, draws, l)
    {
      if l < |V| {
        assert ScheduledAt(adj, V, phases, deterministic, shuffle, draws, l);
        assert adj'[l] == adj[l] && V'[l] == V[l] && phases'[l] == phases[l];
      }
    }
  }

  /** The fields of the hierarchy that build sets and the other operations keep. */
  datatype Levels = Levels(
    phases: seq<seq<seq<nat>>>, adj: seq<Adjacency>, V: seq<seq<Vec3>>, N: seq<seq<Vec3>>, A: seq<seq<real>>,
    toUpper: seq<seq<Upper>>, toLower: seq<seq<nat>>, totalSize: nat)

  /** A level stack as build makes it: at least one level, the stack's
      shape with one phase list per level, the total size summed, every
      level above the first the downsampling of the one below it, and
      every level's phases its schedule. */
  ghost predicate Built(lv: Levels, deterministic: bool, pool: Pool, shuffle: nat -> seq<nat>, draws: nat -> seq<nat>) {
    && 0 < |lv.V| && |lv.phases| == |lv.V|
    && Stack(lv.adj, lv.V, lv.N, lv.A, lv.toUpper, lv.toLower)
    && lv.totalSize == TotalSize(lv.V)
    && Downsampled(lv.adj, lv.V, lv.N, lv.A, lv.toUpper, lv.toLower, pool)
    && Scheduled(lv.adj, lv.V, lv.phases, deterministic, shuffle, draws)
  }

  /** A well-formed finest level with its schedule is a built stack of one level. */
  lemma BuiltBase(deterministic: bool, pool: Pool, shuffle: nat -> seq<nat>, draws: nat -> seq<nat>,
                  ph: seq<seq<nat>>, adj: Adjacency, V: seq<Vec3>, N: seq<Vec3>, A: seq<real>)
    requires LevelOk(adj, V, N, A)
    requires OrdersFor(shuffle, draws, |V|) && ph == Schedule(adj, |V|, deterministic, shuffle, draws)
    ensures Built(Levels([ph], [adj], [V], [N], [A], [], [], |V|), deterministic, pool, shuffle, draws)
  {
    assert [V][..0] == [];
  }

  /** Pushing the downsampling of the top level, with its schedule, keeps
      a built stack built. */
  lemma BuiltPush(lv: Levels, deterministic: bool, pool: Pool, shuffle: nat -> seq<nat>, draws: nat -> seq<nat>,
                  ph: seq<seq<nat>>, adjP: Adjacency, Vp: seq<Vec3>, Np: seq<Vec3>, Ap: seq<real>,
                  up: seq<Upper>, low: seq<nat>)
    requires Built(lv, deterministic, pool, shuffle, draws)
    requires var t := |lv.V| - 1;
             Coarsens(lv.adj[t], lv.V[t], lv.N[t], lv.A[t], adjP, Vp, Np, Ap, up, low, pool)
    requires OrdersFor(shuffle, draws, |Vp|) && ph == Schedule(adjP, |Vp|, deterministic, shuffle, draws)
    ensures Built(Levels(lv.phases + [ph], lv.adj + [adjP], lv.V + [Vp], lv.N + [Np], lv.A + [Ap],
                         lv.toUpper + [up], lv.toLower + [low], lv.totalSize + |Vp|),
                  deterministic, pool, shuffle, draws)
  {
    var adj', V', N', A' := lv.adj + [adjP], lv.V + [Vp], lv.N + [Np], lv.A + [Ap];
    assert Stack(adj', V', N', A', lv.toUpper + [up], lv.toLower + [low])
        && Downsampled(adj', V', N', A', lv.toUpper + [up], lv.toLower + [low], pool)
        && TotalSize(V') == lv.totalSize + |Vp|
    by {
      DownsampledPush(lv.adj, lv.V, lv.N, lv.A, lv.toUpper, lv.toLower, pool, adjP, Vp, Np, Ap, up, low);
    }
    assert Scheduled(adj', V', lv.phases + [ph], deterministic, shuffle, draws) by {
      ScheduledPush(lv.adj, lv.V, lv.phases, deterministic, shuffle, draws, adjP, Vp, ph);
    }
  }
}
