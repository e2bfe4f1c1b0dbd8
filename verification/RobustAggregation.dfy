/** The outlier filter and the weighted mean of the pure-Python aggregation path.

    Distances are compared squared, which avoids a square root: `RootsFilterAlike`
    shows that any true distances make the same choice. */
module RobustAggregation {
  import opened Sums

  /** One entry of `vectors`: a node and its flattened gradient. */
  datatype Point = Point(node: string, vector: seq<real>)

  const MIN_WEIGHT := 0.000001
  const MIN_THRESHOLD2 := 0.000001 * 0.000001

  ghost predicate DistinctNodes(ps: seq<Point>) {
    forall i, j | 0 <= i < j < |ps| :: ps[i].node != ps[j].node
  }

  ghost predicate Width(ps: seq<Point>, len: nat) {
    forall i | 0 <= i < |ps| :: |ps[i].vector| == len
  }

  function Coord(ps: seq<Point>, i: nat, j: nat): real {
    if i < |ps| then At(ps[i].vector, j) else 0.0
  }

  function Coords(ps: seq<Point>): (nat, nat) -> real {
    (i: nat, j: nat) => Coord(ps, i, j)
  }

  function Vec(v: seq<real>): nat -> real {
    (j: nat) => At(v, j)
  }

  function MeanAt(ps: seq<Point>, j: nat): real
    requires ps != []
  {
    Sum(|ps|, Col(Coords(ps), j)) / |ps| as real
  }

  /** The unweighted coordinate means. */
  function Means(ps: seq<Point>, len: nat): (m: seq<real>)
    requires ps != []
    ensures |m| == len
  {
    seq(len, (j: nat) => MeanAt(ps, j))
  }

  /** The square of the L2 distance between `v` and `m`. */
  function Dist2(v: seq<real>, m: seq<real>): real {
    Sum(|v|, Squared(Minus(Vec(v), Vec(m))))
  }

  function Dists2(ps: seq<Point>, m: seq<real>): (d: seq<real>)
    ensures |d| == |ps|
  {
    seq(|ps|, i requires 0 <= i < |ps| => Dist2(ps[i].vector, m))
  }

  /** The square of `max(median * 3, 1e-6)`. */
  function Threshold2(d2: seq<real>): real
    requires d2 != []
  {
    Max(9.0 * Median(d2), MIN_THRESHOLD2)
  }

  function Far(ps: seq<Point>, m: seq<real>, t: real): seq<string> {
    if ps == [] then []
    else (if Dist2(ps[0].vector, m) > t then [ps[0].node] else []) + Far(ps[1..], m, t)
  }

  function Byzantine(ps: seq<Point>, len: nat): seq<string>
    requires ps != []
  {
    var m := Means(ps, len);
    if |ps| > 3 then Far(ps, m, Threshold2(Dists2(ps, m))) else []
  }

  function Without(ps: seq<Point>, nodes: seq<string>): (r: seq<Point>)
    ensures forall p | p in r :: p in ps && p.node !in nodes
  {
    if ps == [] then []
    else (if ps[0].node !in nodes then [ps[0]] else []) + Without(ps[1..], nodes)
  }

  /** The survivors, or everyone should nobody survive. */
  function Clean(ps: seq<Point>, len: nat): (r: seq<Point>)
    requires ps != []
    ensures r != []
  {
    var kept := Without(ps, Byzantine(ps, len));
    if kept == [] then ps else kept
  }

  function Weight(ps: seq<Point>, weights: map<string, real>, i: nat): (w: real)
    ensures w >= MIN_WEIGHT
  {
    if i < |ps| && ps[i].node in weights then Max(MIN_WEIGHT, weights[ps[i].node]) else 1.0
  }

  function Weights(ps: seq<Point>, weights: map<string, real>): nat -> real {
    (i: nat) => Weight(ps, weights, i)
  }

  function TotalWeight(ps: seq<Point>, weights: map<string, real>): (total: real)
    requires ps != []
    ensures total > 0.0
  {
    WeightedSquare(|ps|, Weights(ps, weights), Weights(ps, weights));
    Sum(|ps|, Weights(ps, weights))
  }

  function MeanOf(ps: seq<Point>, weights: map<string, real>, j: nat): real
    requires ps != []
  {
    Sum(|ps|, Prod(Col(Coords(ps), j), Weights(ps, weights))) / TotalWeight(ps, weights)
  }

  /** The sample-weighted mean, coordinate by coordinate. */
  function WeightedMean(ps: seq<Point>, weights: map<string, real>, len: nat): (r: seq<real>)
    requires ps != []
    ensures |r| == len
  {
    seq(len, (j: nat) => MeanOf(ps, weights, j))
  }

  lemma Divide(x: real, total: real)
    requires total > 0.0
    ensures Mul(total, x / total) == x
  {
  }

  // ---- the filter keeps a strict majority ------------------------------------

  lemma {:induction false} FarNodesKnown(ps: seq<Point>, m: seq<real>, t: real, node: string)
    requires forall i | 0 <= i < |ps| :: ps[i].node != node
    ensures node !in Far(ps, m, t)
  {
    if ps != [] { FarNodesKnown(ps[1..], m, t, node); }
  }

  /** With distinct nodes the filter names exactly the nodes beyond the threshold. */
  lemma {:induction false} FarIffBeyond(ps: seq<Point>, m: seq<real>, t: real)
    requires DistinctNodes(ps)
    ensures forall i | 0 <= i < |ps| :: ps[i].node in Far(ps, m, t) <==> Dist2(ps[i].vector, m) > t
  {
    if ps != [] {
      FarIffBeyond(ps[1..], m, t);
      FarNodesKnown(ps[1..], m, t, ps[0].node);
      forall i | 0 <= i < |ps| ensures ps[i].node in Far(ps, m, t) <==> Dist2(ps[i].vector, m) > t {
        if i > 0 { assert ps[i] == ps[1..][i - 1]; }
      }
    }
  }

  lemma {:induction false} WithoutCounts(ps: seq<Point>, nodes: seq<string>, d2: seq<real>, t: real)
    requires |d2| == |ps|
    requires forall i | 0 <= i < |ps| :: d2[i] <= t ==> ps[i].node !in nodes
    ensures |Without(ps, nodes)| >= CountLe(d2, t)
  {
    if ps != [] { WithoutCounts(ps[1..], nodes, d2[1..], t); }
  }

  /** More than half of the vectors always survive, so falling back to all of them
      never happens. */
  lemma {:induction false} MajoritySurvives(ps: seq<Point>, len: nat)
    requires ps != [] && DistinctNodes(ps)
    ensures |Without(ps, Byzantine(ps, len))| >= |ps| / 2 + 1
    ensures Clean(ps, len) == Without(ps, Byzantine(ps, len))
  {
    var m := Means(ps, len);
    var d2 := Dists2(ps, m);
    var t := Threshold2(d2);
    var byz := Byzantine(ps, len);
    MedianAtMostThreshold(d2);
    MedianMajority(d2, t);
    FarIffBeyond(ps, m, t);
    WithoutCounts(ps, byz, d2, t);
  }

  lemma {:induction false} Dist2NonNegative(v: seq<real>, m: seq<real>)
    ensures Dist2(v, m) >= 0.0
  {
    SumConst(|v|, Const(0.0), 0.0);
    forall j: nat ensures Squared(Minus(Vec(v), Vec(m)))(j) >= 0.0 {
      SquareNonNegative(At(v, j) - At(m, j));
    }
    SumLe(|v|, Const(0.0), Squared(Minus(Vec(v), Vec(m))));
  }

  lemma {:induction false} MedianAtMostThreshold(d2: seq<real>)
    requires d2 != []
    ensures Median(d2) <= Threshold2(d2)
  {
  }

  // ---- with at most three vectors nothing is ever far -------------------------

  lemma ThreeScalars(x: real, y: real, z: real, m: real)
    requires 3.0 * m == x + y + z
    ensures Sq(z - m) <= Sq(x - m) + Sq(x - m) + (Sq(y - m) + Sq(y - m))
  {
    var u, v := x - m, y - m;
    assert z - m == -(u + v);
    SquareNonNegative(u - v);
    assert Sq(z - m) + Sq(u - v) == Sq(u) + Sq(u) + (Sq(v) + Sq(v));
  }

  lemma {:induction false} MeanOfThree(ps: seq<Point>, j: nat)
    requires |ps| == 3
    ensures 3.0 * MeanAt(ps, j) == Coord(ps, 0, j) + Coord(ps, 1, j) + Coord(ps, 2, j)
  {
    var f := Col(Coords(ps), j);
    assert Sum(3, f) == Sum(2, f) + f(2) && Sum(2, f) == Sum(1, f) + f(1) && Sum(1, f) == f(0);
  }

  function Double(f: nat -> real): nat -> real {
    (j: nat) => f(j) + f(j)
  }

  function Plus(f: nat -> real, g: nat -> real): nat -> real {
    (j: nat) => f(j) + g(j)
  }

  /** Deviations from the mean cancel, so each of three is at most twice the others. */
  lemma {:induction false} ThreeBalance(ps: seq<Point>, len: nat, a: nat, b: nat, c: nat)
    requires |ps| == 3 && Width(ps, len) && a < 3 && b < 3 && c < 3 && a != b && b != c && a != c
    ensures var m := Means(ps, len);
      Dist2(ps[c].vector, m) <= 2.0 * Dist2(ps[a].vector, m) + 2.0 * Dist2(ps[b].vector, m)
  {
    hide Sq;
    var m := Means(ps, len);
    var qa := Squared(Minus(Vec(ps[a].vector), Vec(m)));
    var qb := Squared(Minus(Vec(ps[b].vector), Vec(m)));
    var qc := Squared(Minus(Vec(ps[c].vector), Vec(m)));
    forall j: nat | j < len ensures qc(j) <= Plus(Double(qa), Double(qb))(j) {
      MeanOfThree(ps, j);
      ThreeScalars(Coord(ps, a, j), Coord(ps, b, j), Coord(ps, c, j), m[j]);
    }
    SumLe(len, qc, Plus(Double(qa), Double(qb)));
    SumAdd(len, qa, qa, Double(qa));
    SumAdd(len, qb, qb, Double(qb));
    SumAdd(len, Double(qa), Double(qb), Plus(Double(qa), Double(qb)));
  }

  lemma {:induction false} CountTwoOfThree(d2: seq<real>, t: real, i: nat)
    requires |d2| == 3 && i < 3 && CountLe(d2, t) >= 2 && d2[i] > t
    ensures forall k | 0 <= k < 3 && k != i :: d2[k] <= t
  {
    assert d2[1..][1..] == [d2[2]];
    assert CountLe(d2[1..][1..], t) == (if d2[2] <= t then 1 else 0) + CountLe([d2[2]][1..], t);
    assert CountLe(d2, t) == (if d2[0] <= t then 1 else 0) + ((if d2[1] <= t then 1 else 0) + CountLe(d2[1..][1..], t));
  }

  lemma {:induction false} CountAll(s: seq<real>, t: real)
    requires CountLe(s, t) == |s|
    ensures forall i | 0 <= i < |s| :: s[i] <= t
  {
    if s != [] {
      CountAll(s[1..], t);
      assert forall i | 0 < i < |s| :: s[i] == s[1..][i - 1];
    }
  }

  /** The guard `len(vectors) > 3` changes nothing: among at most three vectors none
      lies beyond the threshold. */
  lemma {:induction false} FewAreNeverFar(ps: seq<Point>, len: nat)
    requires ps != [] && |ps| <= 3 && Width(ps, len)
    ensures var m := Means(ps, len); forall i | 0 <= i < |ps| :: Dist2(ps[i].vector, m) <= Threshold2(Dists2(ps, m))
  {
    var m := Means(ps, len);
    var d2 := Dists2(ps, m);
    var med := Median(d2);
    MedianMajority(d2, med);
    MedianNonNegative(ps, m);
    if |ps| <= 2 {
      CountAll(d2, med);
      assert forall i | 0 <= i < |ps| :: d2[i] == Dist2(ps[i].vector, m);
    } else {
      forall i | 0 <= i < |ps| ensures Dist2(ps[i].vector, m) <= Threshold2(d2) {
        assert d2[i] == Dist2(ps[i].vector, m);
        if d2[i] > med { FarthestOfThree(ps, len, i); }
      }
    }
  }

  lemma {:induction false} MedianNonNegative(ps: seq<Point>, m: seq<real>)
    requires ps != []
    ensures Median(Dists2(ps, m)) >= 0.0
  {
    var d2 := Dists2(ps, m);
    var k :| 0 <= k < |d2| && d2[k] == Median(d2);
    Dist2NonNegative(ps[k].vector, m);
  }

  lemma {:induction false} FarthestOfThree(ps: seq<Point>, len: nat, i: nat)
    requires |ps| == 3 && Width(ps, len) && i < 3
    requires var d2 := Dists2(ps, Means(ps, len)); d2[i] > Median(d2)
    ensures var m := Means(ps, len); Dist2(ps[i].vector, m) <= 4.0 * Median(Dists2(ps, m))
  {
    var m := Means(ps, len);
    var d2 := Dists2(ps, m);
    MedianMajority(d2, Median(d2));
    CountTwoOfThree(d2, Median(d2), i);
    var a, b := if i == 0 then 1 else 0, if i == 2 then 1 else 2;
    assert d2[a] == Dist2(ps[a].vector, m) && d2[b] == Dist2(ps[b].vector, m);
    ThreeBalance(ps, len, a, b, i);
  }

  // ---- the aggregate stays near the mean --------------------------------------

  lemma {:induction false} NearMean(ps: seq<Point>, weights: map<string, real>, len: nat, m: seq<real>, t: real)
    requires ps != [] && Width(ps, len) && |m| == len
    requires forall i | 0 <= i < |ps| :: Dist2(ps[i].vector, m) <= t
    ensures Dist2(WeightedMean(ps, weights, len), m) <= t
  {
    hide Mul, Sq;
    var w, c, mu := Weights(ps, weights), Coords(ps), Vec(WeightedMean(ps, weights, len));
    forall j: nat | j < len ensures Mul(Sum(|ps|, w), mu(j)) == Sum(|ps|, Prod(Col(c, j), w)) {
      Divide(Sum(|ps|, Prod(Col(c, j), w)), TotalWeight(ps, weights));
    }
    forall i: nat | i < |ps| ensures Sum(len, Squared(Minus(Row(c, i), Vec(m)))) <= t {
      SumEq(len, Squared(Minus(Row(c, i), Vec(m))), Squared(Minus(Vec(ps[i].vector), Vec(m))));
    }
    Jensen(|ps|, len, w, c, mu, Vec(m), t);
  }

  /** Whatever positive weights the nodes reported, the aggregate lies within the
      outlier threshold of the unweighted mean of everybody. */
  lemma {:induction false} AggregateNearMean(ps: seq<Point>, weights: map<string, real>, len: nat)
    requires ps != [] && DistinctNodes(ps) && Width(ps, len)
    ensures var m := Means(ps, len);
            Dist2(WeightedMean(Clean(ps, len), weights, len), m) <= Threshold2(Dists2(ps, m))
  {
    var m := Means(ps, len);
    var d2 := Dists2(ps, m);
    var t := Threshold2(d2);
    var clean := Clean(ps, len);
    MajoritySurvives(ps, len);
    if |ps| <= 3 { FewAreNeverFar(ps, len); }
    FarIffBeyond(ps, m, t);
    forall i | 0 <= i < |clean| ensures Dist2(clean[i].vector, m) <= t && |clean[i].vector| == len {
      assert clean[i] in clean;
      var k :| 0 <= k < |ps| && ps[k] == clean[i];
      assert d2[k] == Dist2(clean[i].vector, m);
    }
    NearMean(clean, weights, len, m, t);
  }

  /** Each coordinate of the aggregate lies between the least and the greatest
      surviving value. */
  lemma {:induction false} AggregateInHull(ps: seq<Point>, weights: map<string, real>, len: nat, j: nat, lo: real,
      hi: real)
    requires ps != [] && j < len
    requires forall i: nat | i < |ps| :: lo <= Coord(ps, i, j) <= hi
    ensures lo <= WeightedMean(ps, weights, len)[j] <= hi
  {
    hide Mul;
    var x, total := Sum(|ps|, Prod(Col(Coords(ps), j), Weights(ps, weights))), TotalWeight(ps, weights);
    WeightedBounds(|ps|, Weights(ps, weights), Col(Coords(ps), j), lo, hi);
    Divide(x, total);
    Between(total, x / total, lo, hi);
  }

  lemma Between(total: real, x: real, lo: real, hi: real)
    requires total > 0.0 && Mul(total, lo) <= Mul(total, x) <= Mul(total, hi)
    ensures lo <= x <= hi
  {
    CancelOrder(total, lo, x);
    CancelOrder(total, x, hi);
  }

  // ---- squared distances choose like distances --------------------------------

  function Squares(d: seq<real>): (s: seq<real>)
    ensures |s| == |d|
  {
    seq(|d|, i requires 0 <= i < |d| => Sq(d[i]))
  }

  lemma {:induction false} SquaresCons(x: real, d: seq<real>)
    ensures Squares([x] + d) == [Sq(x)] + Squares(d)
  {
    hide Sq;
  }

  lemma {:induction false} InsertSquares(x: real, d: seq<real>)
    requires x >= 0.0 && forall i | 0 <= i < |d| :: d[i] >= 0.0
    ensures Insert(Sq(x), Squares(d)) == Squares(Insert(x, d))
  {
    if d != [] {
      hide Sq;
      assert Squares(d)[1..] == Squares(d[1..]);
      SquareOrder(x, d[0]);
      InsertSquares(x, d[1..]);
      SquaresCons(d[0], Insert(x, d[1..]));
      SquaresCons(x, d);
    }
  }

  lemma SquareOrder(x: real, y: real)
    requires x >= 0.0 && y >= 0.0
    ensures x <= y <==> Sq(x) <= Sq(y)
  {
    assert Sq(y) - Sq(x) == (y - x) * (y + x);
    if x > y { NegativeProduct(y + x, y - x); }
  }

  lemma {:induction false} SortedSquares(d: seq<real>)
    requires forall i | 0 <= i < |d| :: d[i] >= 0.0
    ensures Sorted(Squares(d)) == Squares(Sorted(d))
  {
    if d != [] {
      assert Squares(d)[1..] == Squares(d[1..]);
      SortedSquares(d[1..]);
      forall i | 0 <= i < |Sorted(d[1..])| ensures Sorted(d[1..])[i] >= 0.0 {
        assert Sorted(d[1..])[i] in multiset(Sorted(d[1..]));
        assert Sorted(d[1..])[i] in d[1..];
      }
      InsertSquares(d[0], Sorted(d[1..]));
    }
  }

  /** For true distances `d` the code's test `d > max(3 * median(d), 1e-6)` picks the
      same vectors as the squared test used here. */
  lemma {:induction false} RootsFilterAlike(d: seq<real>, k: nat)
    requires k < |d| && forall i | 0 <= i < |d| :: d[i] >= 0.0
    ensures d[k] > Max(Median(d) * 3.0, 0.000001) <==> Squares(d)[k] > Threshold2(Squares(d))
  {
    hide Sq, Max, Median;
    MedianOfSquares(d);
    SameChoice(d[k], Median(d));
  }

  lemma {:induction false} MedianOfSquares(d: seq<real>)
    requires d != [] && forall i | 0 <= i < |d| :: d[i] >= 0.0
    ensures Median(Squares(d)) == Sq(Median(d)) && Median(d) >= 0.0
  {
    hide Sq;
    SortedSquares(d);
    assert Median(d) in d;
    assert Sorted(Squares(d))[|d| / 2] == Sq(Sorted(d)[|d| / 2]);
  }

  lemma SameChoice(x: real, med: real)
    requires x >= 0.0 && med >= 0.0
    ensures x > Max(med * 3.0, 0.000001) <==> Sq(x) > Max(9.0 * Sq(med), MIN_THRESHOLD2)
  {
    SquareOrder(x, med * 3.0);
    SquareOrder(x, 0.000001);
    assert Sq(med * 3.0) == 9.0 * Sq(med);
  }

  // ---- the choice, counted ------------------------------------------------------

  /** How many vectors are so near that nine times their squared distance is below `x`. */
  function MuchNearer(ps: seq<Point>, m: seq<real>, x: real): nat {
    if ps == [] then 0 else (if 9.0 * Dist2(ps[0].vector, m) < x then 1 else 0) + MuchNearer(ps[1..], m, x)
  }

  lemma {:induction false} MuchNearerCounts(ps: seq<Point>, m: seq<real>, x: real)
    ensures MuchNearer(ps, m, x) == CountLt(Dists2(ps, m), x / 9.0)
  {
    hide Dist2;
    if ps != [] {
      MuchNearerCounts(ps[1..], m, x);
      assert Dists2(ps, m)[1..] == Dists2(ps[1..], m);
    }
  }

  /** A node is rejected exactly when its squared distance from the mean is above 1e-12 and
      above nine times that of more than half of the vectors. */
  lemma {:induction false} RejectedIff(ps: seq<Point>, len: nat, i: nat)
    requires DistinctNodes(ps) && Width(ps, len) && i < |ps|
    ensures var m := Means(ps, len);
      var x := Dist2(ps[i].vector, m);
      ps[i].node in Byzantine(ps, len) <==>
        (x > 0.000001 * 0.000001 && MuchNearer(ps, m, x) >= |ps| / 2 + 1)
  {
    hide Dist2, Median;
    var m := Means(ps, len);
    var d2, x := Dists2(ps, m), Dist2(ps[i].vector, m);
    FarIffBeyond(ps, m, Threshold2(d2));
    MuchNearerCounts(ps, m, x);
    MedianBelow(d2, x / 9.0);
    if |ps| <= 3 { FewAreNeverFar(ps, len); }
  }

  /** The unweighted mean: its multiple is the sum, at each coordinate. */
  lemma {:induction false} MeansExact(ps: seq<Point>, len: nat, j: nat)
    requires ps != [] && j < len
    ensures |ps| as real * Means(ps, len)[j] == Sum(|ps|, Col(Coords(ps), j))
  {
    hide Sum;
    Divide(Sum(|ps|, Col(Coords(ps), j)), |ps| as real);
  }

  /** The squared distance, coordinate by coordinate. */
  lemma {:induction false} Dist2Exact(v: seq<real>, m: seq<real>, x: real, y: real)
    requires |v| == |m|
    ensures Dist2([], []) == 0.0
    ensures Dist2(v + [x], m + [y]) == Dist2(v, m) + (x - y) * (x - y)
  {
    var n := |v|;
    var longer := Squared(Minus(Vec(v + [x]), Vec(m + [y])));
    SumEq(n, longer, Squared(Minus(Vec(v), Vec(m))));
    assert longer(n) == Sq(x - y);
    assert Dist2(v + [x], m + [y]) == Sum(n, longer) + longer(n);
  }
}
