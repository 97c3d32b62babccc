/**
  The per-vertex rules of propagateSolution and propagateConstraints: which
  symmetry orders are accepted, how the one or two finer constituents of a
  coarse vertex are combined, and how constraint weights are clamped. The
  transport operators (compat_orientation_extrinsic_2/4/6 and
  compat_position_extrinsic_3/4), the normalisation of a vector and the
  RCPOVERFLOW threshold are floating-point geometry and are supplied by the
  caller in an Operators value.
 */
module Propagation {
  import opened Graph
  import opened Vectors
  import opened Outcomes

  /** compat_orientation_extrinsic_k(q0, n0, q1, n1): two compatible representatives. */
  type Orient = (Vec3, Vec3, Vec3, Vec3) -> (Vec3, Vec3)

  /** compat_position_extrinsic_k(p0, n0, q0, o0, p1, n1, q1, o1, scale, 1/scale),
      with the inverse scale derived from the scale by the operator itself. */
  type Place = (Vec3, Vec3, Vec3, Vec3, Vec3, Vec3, Vec3, Vec3, real) -> (Vec3, Vec3)

  /** The geometric operators propagation needs, as values. */
  datatype Operators = Operators(
    orient2: Orient, orient4: Orient, orient6: Orient,
    place3: Place, place4: Place,
    unit: Vec3 -> Vec3,
    rcpOverflow: real)

  /** The accepted rotational symmetry orders (rosy). */
  datatype RoSy = RoSy2 | RoSy4 | RoSy6

  /** The accepted positional symmetry orders (posy). */
  datatype PoSy = PoSy3 | PoSy4

  /** std::runtime_error("Unsupported symmetry!"). */
  datatype SymmetryFault = UnsupportedSymmetry

  function RoSyOrder(s: RoSy): int {
    match s
    case RoSy2 => 2
    case RoSy4 => 4
    case RoSy6 => 6
  }

  function PoSyOrder(s: PoSy): int {
    match s
    case PoSy3 => 3
    case PoSy4 => 4
  }

  /** The rosy check of src/hierarchy.cpp:545-553 and 601-609: 2, 4 and 6 are
      accepted and name their order, every other value is refused. */
  function ParseRoSy(rosy: int): (r: Result<RoSy, SymmetryFault>)
    ensures r.Success? <==> rosy == 2 || rosy == 4 || rosy == 6
    ensures r.Success? ==> RoSyOrder(r.value) == rosy
  {
    if rosy == 2 then Success(RoSy2)
    else if rosy == 4 then Success(RoSy4)
    else if rosy == 6 then Success(RoSy6)
    else Failure(UnsupportedSymmetry)
  }

  /** The posy check of src/hierarchy.cpp:611-616: 4 and 3 are accepted. */
  function ParsePoSy(posy: int): (r: Result<PoSy, SymmetryFault>)
    ensures r.Success? <==> posy == 3 || posy == 4
    ensures r.Success? ==> PoSyOrder(r.value) == posy
  {
    if posy == 4 then Success(PoSy4)
    else if posy == 3 then Success(PoSy3)
    else Failure(UnsupportedSymmetry)
  }

  /** Every accepted order parses back to itself. */
  lemma ParseOrders(r: RoSy, p: PoSy)
    ensures ParseRoSy(RoSyOrder(r)) == Success(r)
    ensures ParsePoSy(PoSyOrder(p)) == Success(p)
  {
  }

  function OrientFor(ops: Operators, s: RoSy): Orient {
    match s
    case RoSy2 => ops.orient2
    case RoSy4 => ops.orient4
    case RoSy6 => ops.orient6
  }

  function PlaceFor(ops: Operators, s: PoSy): Place {
    match s
    case PoSy3 => ops.place3
    case PoSy4 => ops.place4
  }

  /** `q -= n.dot(q) * n; if (q.squaredNorm() > RCPOVERFLOW) q.normalize();` */
  function Tangent(ops: Operators, n: Vec3, q: Vec3): (r: Vec3)
  {
    var p := Project(n, q);
    if Dot(p, p) > ops.rcpOverflow then ops.unit(p) else p
  }

  /** The orientation of coarse vertex with column up and normal n
      (src/hierarchy.cpp:568-585): the transported sum of both
      constituents' orientations, or the one constituent's, moved into the
      tangent plane. */
  function SolutionAt(orient: Orient, ops: Operators, up: Upper, Q: seq<Vec3>, N: seq<Vec3>, n: Vec3): (r: Vec3)
    requires Parents(up, |Q|) && |N| == |Q|
  {
    var q :=
      if up.second != INVALID then
        var (a, b) := orient(Q[up.first], N[up.first], Q[up.second], N[up.second]);
        Add(a, b)
      else Q[up.first];
    Tangent(ops, n, q)
  }

  /** A carried-over vertex takes its one constituent's orientation, moved
      into the tangent plane, and never calls the transport operator. */
  lemma SolutionOfSingle(orient: Orient, orient': Orient, ops: Operators, up: Upper, Q: seq<Vec3>, N: seq<Vec3>, n: Vec3)
    requires Parents(up, |Q|) && |N| == |Q| && up.second == INVALID
    ensures SolutionAt(orient, ops, up, Q, N, n) == Tangent(ops, n, Q[up.first])
    ensures SolutionAt(orient, ops, up, Q, N, n) == SolutionAt(orient', ops, up, Q, N, n)
  {
  }

  /** When the result is not normalised, it lies in the tangent plane of a
      unit normal. */
  lemma TangentIsTangent(ops: Operators, n: Vec3, q: Vec3)
    requires Dot(n, n) == 1.0 && Dot(Project(n, q), Project(n, q)) <= ops.rcpOverflow
    ensures Dot(n, Tangent(ops, n, q)) == 0.0
  {
  }

  // ---------------------------------------------------------------------
  // propagateConstraints
  // ---------------------------------------------------------------------

  /** A constraint value and its weight. */
  datatype Pin = Pin(value: Vec3, weight: real)

  /** Which constituents of a column carry a non-zero weight
      (has_cq0/has_cq1, has_co0/has_co1). */
  datatype Sources = Neither | FirstOnly | SecondOnly | Both

  function SourcesOf(w: seq<real>, up: Upper): (r: Sources)
    requires Parents(up, |w|)
    ensures r == Neither <==> w[up.first] == 0.0 && (up.second == INVALID || w[up.second] == 0.0)
    ensures r == Both ==> up.second != INVALID
  {
    var has0 := w[up.first] != 0.0;
    var has1 := up.second != INVALID && w[up.second] != 0.0;
    if has0 && !has1 then FirstOnly
    else if has1 && !has0 then SecondOnly
    else if has1 && has0 then Both
    else Neither
  }

  /** `if (w > 0) w = 1;` */
  function Clamp(w: real): real {
    if w > 0.0 then 1.0 else w
  }

  /** The orientation constraint of a coarse vertex with column up and
      normal n (src/hierarchy.cpp:642-663, 688-691). */
  function OrientationPin(orient: Orient, ops: Operators, up: Upper, CQ: seq<Vec3>, CQw: seq<real>, N: seq<Vec3>, n: Vec3): (r: Pin)
    requires Parents(up, |CQ|) && |CQw| == |CQ| && |N| == |CQ|
  {
    var raw :=
      match SourcesOf(CQw, up)
      case Neither => Pin(Zero, 0.0)
      case FirstOnly => Pin(CQ[up.first], CQw[up.first])
      case SecondOnly => Pin(CQ[up.second], CQw[up.second])
      case Both =>
        var (a, b) := orient(CQ[up.first], N[up.first], CQ[up.second], N[up.second]);
        Pin(Add(Scale(CQw[up.first], a), Scale(CQw[up.second], b)), CQw[up.first] + CQw[up.second]);
    Pin(if raw.value != Zero then Tangent(ops, n, raw.value) else raw.value, Clamp(raw.weight))
  }

  /** The weights the position rule divides by are never negative. */
  ghost predicate NonNegative(w: seq<real>) {
    forall v :: 0 <= v < |w| ==> w[v] >= 0.0
  }

  /** The position constraint of a coarse vertex with column up, normal n
      and position v, given its orientation constraint cq
      (src/hierarchy.cpp:665-683, 688-691). The adjustment of line 682 uses
      the orientation constraint cq, as written. */
  function PositionPin(place: Place, scale: real, up: Upper, V: seq<Vec3>, N: seq<Vec3>, CQ: seq<Vec3>,
                       CO: seq<Vec3>, COw: seq<real>, n: Vec3, v: Vec3, cq: Vec3): (r: Pin)
    requires Parents(up, |CO|) && |V| == |CO| && |N| == |CO| && |CQ| == |CO| && |COw| == |CO|
    requires NonNegative(COw)
  {
    var raw :=
      match SourcesOf(COw, up)
      case Neither => Pin(Zero, 0.0)
      case FirstOnly => Pin(CO[up.first], COw[up.first])
      case SecondOnly => Pin(CO[up.second], COw[up.second])
      case Both =>
        var (a, b) := place(V[up.first], N[up.first], CQ[up.first], CO[up.first],
                            V[up.second], N[up.second], CQ[up.second], CO[up.second], scale);
        var w := COw[up.first] + COw[up.second];
        Pin(Scale(1.0 / w, Add(Scale(COw[up.first], a), Scale(COw[up.second], b))), w);
    Pin(if raw.value != Zero then Sub(raw.value, Scale(Dot(n, Sub(cq, v)), n)) else raw.value, Clamp(raw.weight))
  }

  /** A coarse vertex none of whose constituents is constrained gets weight 0
      and a zero value, for both kinds of constraint. */
  lemma UnconstrainedStaysZero(orient: Orient, ops: Operators, place: Place, scale: real, up: Upper,
                               V: seq<Vec3>, N: seq<Vec3>, CQ: seq<Vec3>, CQw: seq<real>, CO: seq<Vec3>, COw: seq<real>,
                               n: Vec3, v: Vec3, cq: Vec3)
    requires Parents(up, |CO|) && |V| == |CO| && |N| == |CO| && |CQ| == |CO| && |CQw| == |CO| && |COw| == |CO|
    requires NonNegative(COw)
    requires CQw[up.first] == 0.0 && (up.second == INVALID || CQw[up.second] == 0.0)
    requires COw[up.first] == 0.0 && (up.second == INVALID || COw[up.second] == 0.0)
    ensures OrientationPin(orient, ops, up, CQ, CQw, N, n) == Pin(Zero, 0.0)
    ensures PositionPin(place, scale, up, V, N, CQ, CO, COw, n, v, cq) == Pin(Zero, 0.0)
  {
  }

  /** The constituent whose weight is the only non-zero one, if there is one. */
  function Sole(w: seq<real>, up: Upper): (r: nat)
    requires Parents(up, |w|)
    requires SourcesOf(w, up) == FirstOnly || SourcesOf(w, up) == SecondOnly
    ensures r < |w| && w[r] != 0.0 && (r == up.first || r == up.second)
  {
    if SourcesOf(w, up) == FirstOnly then up.first else up.second
  }

  /** When exactly one constituent carries an orientation constraint, its
      value is copied (moved into the tangent plane when non-zero) and its
      weight is copied and clamped; the transport operator is not used. */
  lemma OrientationOfSingle(orient: Orient, orient': Orient, ops: Operators, up: Upper,
                            CQ: seq<Vec3>, CQw: seq<real>, N: seq<Vec3>, n: Vec3)
    requires Parents(up, |CQ|) && |CQw| == |CQ| && |N| == |CQ|
    requires SourcesOf(CQw, up) == FirstOnly || SourcesOf(CQw, up) == SecondOnly
    ensures var u := Sole(CQw, up);
            var r := OrientationPin(orient, ops, up, CQ, CQw, N, n);
            && r.weight == Clamp(CQw[u])
            && r.value == (if CQ[u] != Zero then Tangent(ops, n, CQ[u]) else Zero)
            && r == OrientationPin(orient', ops, up, CQ, CQw, N, n)
  {
  }

  /** When exactly one constituent carries a position constraint, its value
      is copied (then adjusted along the normal when non-zero) and its
      weight becomes exactly 1; the transport operator is not used. */
  lemma PositionOfSingle(place: Place, place': Place, scale: real, up: Upper, V: seq<Vec3>, N: seq<Vec3>,
                         CQ: seq<Vec3>, CO: seq<Vec3>, COw: seq<real>, n: Vec3, v: Vec3, cq: Vec3)
    requires Parents(up, |CO|) && |V| == |CO| && |N| == |CO| && |CQ| == |CO| && |COw| == |CO|
    requires NonNegative(COw)
    requires SourcesOf(COw, up) == FirstOnly || SourcesOf(COw, up) == SecondOnly
    ensures var u := Sole(COw, up);
            var r := PositionPin(place, scale, up, V, N, CQ, CO, COw, n, v, cq);
            && r.weight == 1.0
            && r.value == (if CO[u] != Zero then Sub(CO[u], Scale(Dot(n, Sub(cq, v)), n)) else Zero)
            && r == PositionPin(place', scale, up, V, N, CQ, CO, COw, n, v, cq)
  {
  }

  /** With non-negative weights, an orientation constraint weight is a
      presence flag: 1 exactly when some constituent is constrained, and 0
      otherwise. */
  lemma OrientationWeightIsPresence(orient: Orient, ops: Operators, up: Upper, CQ: seq<Vec3>, CQw: seq<real>,
                                    N: seq<Vec3>, n: Vec3)
    requires Parents(up, |CQ|) && |CQw| == |CQ| && |N| == |CQ| && NonNegative(CQw)
    ensures var r := OrientationPin(orient, ops, up, CQ, CQw, N, n);
            (r.weight == 1.0 <==> SourcesOf(CQw, up) != Neither) && (r.weight == 0.0 <==> SourcesOf(CQw, up) == Neither)
  {
  }

  /** A position constraint weight is a presence flag in the same way. */
  lemma PositionWeightIsPresence(place: Place, scale: real, up: Upper, V: seq<Vec3>, N: seq<Vec3>,
                                 CQ: seq<Vec3>, CO: seq<Vec3>, COw: seq<real>, n: Vec3, v: Vec3, cq: Vec3)
    requires Parents(up, |CO|) && |V| == |CO| && |N| == |CO| && |CQ| == |CO| && |COw| == |CO|
    requires NonNegative(COw)
    ensures var r := PositionPin(place, scale, up, V, N, CQ, CO, COw, n, v, cq);
            (r.weight == 1.0 <==> SourcesOf(COw, up) != Neither) && (r.weight == 0.0 <==> SourcesOf(COw, up) == Neither)
  {
  }

  /** A weighted average of a point with itself is that point. */
  lemma PositionIsAverage(w0: real, w1: real, a: Vec3)
    requires w0 > 0.0 && w1 > 0.0
    ensures Scale(1.0 / (w0 + w1), Add(Scale(w0, a), Scale(w1, a))) == a
  {
    var w := w0 + w1;
    assert (w0 * a.x + w1 * a.x) == w * a.x;
    assert (w0 * a.y + w1 * a.y) == w * a.y;
    assert (w0 * a.z + w1 * a.z) == w * a.z;
    assert 1.0 / w * (w * a.x) == a.x;
    assert 1.0 / w * (w * a.y) == a.y;
    assert 1.0 / w * (w * a.z) == a.z;
  }

  /** Both constituents of a coarse vertex carry a position constraint: the
      result is the weighted average of the two points the operator
      returns, adjusted along the normal, with weight 1. When the operator
      places both at the same non-zero point a, the result is a moved along
      the normal n by the offset of cq from v. */
  lemma PositionOfPair(place: Place, scale: real, up: Upper, V: seq<Vec3>, N: seq<Vec3>, CQ: seq<Vec3>,
                       CO: seq<Vec3>, COw: seq<real>, n: Vec3, v: Vec3, cq: Vec3, a: Vec3)
    requires Parents(up, |CO|) && |V| == |CO| && |N| == |CO| && |CQ| == |CO| && |COw| == |CO|
    requires NonNegative(COw) && SourcesOf(COw, up) == Both
    requires place(V[up.first], N[up.first], CQ[up.first], CO[up.first],
                   V[up.second], N[up.second], CQ[up.second], CO[up.second], scale) == (a, a)
    requires a != Zero
    ensures PositionPin(place, scale, up, V, N, CQ, CO, COw, n, v, cq) == Pin(Sub(a, Scale(Dot(n, Sub(cq, v)), n)), 1.0)
  {
    assert COw[up.first] > 0.0 && COw[up.second] > 0.0;
    PositionIsAverage(COw[up.first], COw[up.second], a);
  }

  // ---------------------------------------------------------------------
  // One level of each propagation
  // ---------------------------------------------------------------------

  /** Coarse orientations Qn are the solutions propagated through the
      columns toUpper from the finer level's orientations Q and normals N,
      one per coarse vertex, with coarse normals Nn. */
  ghost predicate Solved(orient: Orient, ops: Operators, toUpper: seq<Upper>, Q: seq<Vec3>, N: seq<Vec3>, Nn: seq<Vec3>,
                         Qn: seq<Vec3>)
    requires |N| == |Q| && |Nn| == |toUpper|
    requires forall c :: 0 <= c < |toUpper| ==> Parents(toUpper[c], |Q|)
  {
    |Qn| == |toUpper| && forall i :: 0 <= i < |toUpper| ==> Qn[i] == SolutionAt(orient, ops, toUpper[i], Q, N, Nn[i])
  }

  /** The coarse constraints (CQn, CQwn, COn, COwn) are the ones the
      columns toUpper determine from the finer level's constraints, one
      per coarse vertex with position Vn and normal Nn, and every coarse
      position weight is 0 or 1. */
  ghost predicate Constrained(orient: Orient, place: Place, ops: Operators, scale: real, toUpper: seq<Upper>,
                              V: seq<Vec3>, N: seq<Vec3>, CQ: seq<Vec3>, CQw: seq<real>, CO: seq<Vec3>, COw: seq<real>,
                              Vn: seq<Vec3>, Nn: seq<Vec3>,
                              CQn: seq<Vec3>, CQwn: seq<real>, COn: seq<Vec3>, COwn: seq<real>)
    requires |V| == |CO| && |N| == |CO| && |CQ| == |CO| && |CQw| == |CO| && |COw| == |CO| && NonNegative(COw)
    requires |Vn| == |toUpper| && |Nn| == |toUpper|
    requires forall c :: 0 <= c < |toUpper| ==> Parents(toUpper[c], |CO|)
  {
    && |CQn| == |toUpper| && |CQwn| == |toUpper| && |COn| == |toUpper| && |COwn| == |toUpper|
    && (forall i :: 0 <= i < |toUpper| ==>
          Pin(CQn[i], CQwn[i]) == OrientationPin(orient, ops, toUpper[i], CQ, CQw, N, Nn[i]))
    && (forall i :: 0 <= i < |toUpper| ==>
          Pin(COn[i], COwn[i]) == PositionPin(place, scale, toUpper[i], V, N, CQ, CO, COw, Nn[i], Vn[i], CQn[i]))
    && (forall i :: 0 <= i < |toUpper| ==> COwn[i] == 0.0 || COwn[i] == 1.0)
  }

  /** The body of propagateSolution's parallel_for over the coarse level
      (src/hierarchy.cpp:564-589), run as one sequential loop that
      overwrites column i of Q_next with the orientation of coarse vertex i. */
  method SolveLevel(orient: Orient, ops: Operators, toUpper: seq<Upper>, Q: seq<Vec3>, N: seq<Vec3>, Nn: seq<Vec3>,
                    Qn0: seq<Vec3>)
    returns (Qn: seq<Vec3>)
    requires |N| == |Q| && |Nn| == |toUpper| && |Qn0| == |toUpper|
    requires forall c :: 0 <= c < |toUpper| ==> Parents(toUpper[c], |Q|)
    ensures Solved(orient, ops, toUpper, Q, N, Nn, Qn)
  {
    Qn := Qn0;
    for i := 0 to |toUpper|
      invariant |Qn| == |toUpper|
      invariant forall i' :: 0 <= i' < i ==> Qn[i'] == SolutionAt(orient, ops, toUpper[i'], Q, N, Nn[i'])
    {
      Qn := Qn[i := SolutionAt(orient, ops, toUpper[i], Q, N, Nn[i])];
    }
  }

  /** One coarse vertex of propagateConstraints: its orientation
      constraint, then its position constraint, whose weight is 0 or 1. */
  method ConstrainVertex(orient: Orient, place: Place, ops: Operators, scale: real, up: Upper,
                         V: seq<Vec3>, N: seq<Vec3>, CQ: seq<Vec3>, CQw: seq<real>, CO: seq<Vec3>, COw: seq<real>,
                         v: Vec3, n: Vec3)
    returns (o: Pin, p: Pin)
    requires |V| == |CO| && |N| == |CO| && |CQ| == |CO| && |CQw| == |CO| && |COw| == |CO| && NonNegative(COw)
    requires Parents(up, |CO|)
    ensures o == OrientationPin(orient, ops, up, CQ, CQw, N, n)
    ensures p == PositionPin(place, scale, up, V, N, CQ, CO, COw, n, v, o.value)
    ensures p.weight == 0.0 || p.weight == 1.0
  {
    o := OrientationPin(orient, ops, up, CQ, CQw, N, n);
    p := PositionPin(place, scale, up, V, N, CQ, CO, COw, n, v, o.value);
    PositionWeightIsPresence(place, scale, up, V, N, CQ, CO, COw, n, v, o.value);
  }

  /** The body of propagateConstraints' parallel_for over the coarse level
      (src/hierarchy.cpp:634-700), run as one sequential loop that
      overwrites column i of the coarse level's four constraint arrays:
      each coarse vertex gets its orientation and position constraints,
      and every position weight written is 0 or 1. */
  method ConstrainLevel(orient: Orient, place: Place, ops: Operators, scale: real, toUpper: seq<Upper>,
                        V: seq<Vec3>, N: seq<Vec3>, CQ: seq<Vec3>, CQw: seq<real>, CO: seq<Vec3>, COw: seq<real>,
                        Vn: seq<Vec3>, Nn: seq<Vec3>,
                        CQn0: seq<Vec3>, CQwn0: seq<real>, COn0: seq<Vec3>, COwn0: seq<real>)
    returns (CQn: seq<Vec3>, CQwn: seq<real>, COn: seq<Vec3>, COwn: seq<real>)
    requires |V| == |CO| && |N| == |CO| && |CQ| == |CO| && |CQw| == |CO| && |COw| == |CO| && NonNegative(COw)
    requires |Vn| == |toUpper| && |Nn| == |toUpper|
    requires |CQn0| == |toUpper| && |CQwn0| == |toUpper| && |COn0| == |toUpper| && |COwn0| == |toUpper|
    requires forall c :: 0 <= c < |toUpper| ==> Parents(toUpper[c], |CO|)
    ensures Constrained(orient, place, ops, scale, toUpper, V, N, CQ, CQw, CO, COw, Vn, Nn, CQn, CQwn, COn, COwn)
    ensures NonNegative(COwn)
  {
    CQn, CQwn, COn, COwn := CQn0, CQwn0, COn0, COwn0;
    for i := 0 to |toUpper|
      invariant |CQn| == |toUpper| && |CQwn| == |toUpper| && |COn| == |toUpper| && |COwn| == |toUpper|
      invariant forall i' :: 0 <= i' < i ==>
                  Pin(CQn[i'], CQwn[i']) == OrientationPin(orient, ops, toUpper[i'], CQ, CQw, N, Nn[i'])
      invariant forall i' :: 0 <= i' < i ==>
                  Pin(COn[i'], COwn[i']) == PositionPin(place, scale, toUpper[i'], V, N, CQ, CO, COw, Nn[i'], Vn[i'], CQn[i'])
      invariant forall i' :: 0 <= i' < i ==> COwn[i'] == 0.0 || COwn[i'] == 1.0
    {
      var o, p := ConstrainVertex(orient, place, ops, scale, toUpper[i], V, N, CQ, CQw, CO, COw, Vn[i], Nn[i]);
      CQn, CQwn, COn, COwn := CQn[i := o.value], CQwn[i := o.weight], COn[i := p.value], COwn[i := p.weight];
    }
  }
}
