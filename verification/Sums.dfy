/** Finite sums over exact reals, the inequalities the aggregation proofs need,
    and the sorting of distances. */
module Sums {

  function Sum(n: nat, f: nat -> real): real {
    if n == 0 then 0.0 else Sum(n - 1, f) + f(n - 1)
  }

  /** Coordinate `i` of `v`; zero beyond the end, so that sums need no guard. */
  function At(v: seq<real>, i: nat): real {
    if i < |v| then v[i] else 0.0
  }

  function Total(v: seq<real>): real {
    Sum(|v|, (i: nat) => At(v, i))
  }

  /** Multiplication by name: proofs about sums hide it and stay linear. */
  function Mul(x: real, y: real): real {
    x * y
  }

  function Sq(x: real): real {
    x * x
  }

  function Max(x: real, y: real): (m: real)
    ensures x <= m && y <= m && (m == x || m == y)
  {
    if x >= y then x else y
  }

  function Min(x: real, y: real): (m: real)
    ensures m <= x && m <= y && (m == x || m == y)
  {
    if x <= y then x else y
  }

  lemma {:induction false} SumEq(n: nat, f: nat -> real, g: nat -> real)
    requires forall i: nat | i < n :: f(i) == g(i)
    ensures Sum(n, f) == Sum(n, g)
  {
    if n > 0 { SumEq(n - 1, f, g); }
  }

  lemma {:induction false} SumLe(n: nat, f: nat -> real, g: nat -> real)
    requires forall i: nat | i < n :: f(i) <= g(i)
    ensures Sum(n, f) <= Sum(n, g)
  {
    if n > 0 { SumLe(n - 1, f, g); }
  }

  lemma {:induction false} SumConst(n: nat, f: nat -> real, c: real)
    requires forall i: nat | i < n :: f(i) == c
    ensures Sum(n, f) == n as real * c
  {
    if n > 0 {
      SumConst(n - 1, f, c);
      assert n as real == (n - 1) as real + 1.0;
    }
  }

  lemma {:induction false} SumAdd(n: nat, f: nat -> real, g: nat -> real, h: nat -> real)
    requires forall i: nat | i < n :: h(i) == f(i) + g(i)
    ensures Sum(n, h) == Sum(n, f) + Sum(n, g)
  {
    if n > 0 { SumAdd(n - 1, f, g, h); }
  }

  // ---- sequences and tables of reals as functions -----------------------------

  function Prod(f: nat -> real, g: nat -> real): nat -> real {
    (i: nat) => Mul(f(i), g(i))
  }

  function Squared(f: nat -> real): nat -> real {
    (i: nat) => Sq(f(i))
  }

  function Minus(f: nat -> real, g: nat -> real): nat -> real {
    (i: nat) => f(i) - g(i)
  }

  function Scaled(a: real, f: nat -> real): nat -> real {
    (i: nat) => Mul(a, f(i))
  }

  function Const(a: real): nat -> real {
    (i: nat) => a
  }

  function Row(q: (nat, nat) -> real, i: nat): nat -> real {
    (j: nat) => q(i, j)
  }

  function Col(q: (nat, nat) -> real, j: nat): nat -> real {
    (i: nat) => q(i, j)
  }

  function RowSums(q: (nat, nat) -> real, m: nat): nat -> real {
    (i: nat) => Sum(m, Row(q, i))
  }

  function ColSums(q: (nat, nat) -> real, n: nat): nat -> real {
    (j: nat) => Sum(n, Col(q, j))
  }

  lemma {:induction false} SumSwap(n: nat, m: nat, q: (nat, nat) -> real)
    ensures Sum(n, RowSums(q, m)) == Sum(m, ColSums(q, n))
  {
    if n == 0 {
      SumConst(m, ColSums(q, 0), 0.0);
    } else {
      SumSwap(n - 1, m, q);
      SumAdd(m, ColSums(q, n - 1), Row(q, n - 1), ColSums(q, n));
    }
  }

  /** Cauchy-Schwarz for a positively weighted sum. */
  lemma {:induction false} WeightedSquare(n: nat, w: nat -> real, x: nat -> real)
    requires forall i: nat | i < n :: w(i) > 0.0
    ensures Sq(Sum(n, Prod(w, x))) <= Mul(Sum(n, w), Sum(n, Prod(w, Squared(x))))
    ensures Sum(n, w) >= 0.0 && (n > 0 ==> Sum(n, w) > 0.0)
  {
    if n > 0 {
      hide Mul, Sq;
      WeightedSquare(n - 1, w, x);
      var before := Triple(Sum(n - 1, w), Sum(n - 1, Prod(w, x)), Sum(n - 1, Prod(w, Squared(x))));
      var after := Triple(Sum(n, w), Sum(n, Prod(w, x)), Sum(n, Prod(w, Squared(x))));
      CauchyStep(before, after, w(n - 1), x(n - 1), n == 1);
    }
  }

  /** The total weight, the weighted sum and the weighted sum of squares so far. */
  datatype Triple = Triple(total: real, a: real, b: real)

  lemma {:induction false} CauchyStep(s: Triple, t: Triple, w: real, x: real, first: bool)
    requires w > 0.0 && Sq(s.a) <= Mul(s.total, s.b)
    requires if first then s == Triple(0.0, 0.0, 0.0) else s.total > 0.0
    requires t.total == s.total + w && t.a == s.a + Mul(w, x) && t.b == s.b + Mul(w, Sq(x))
    ensures Sq(t.a) <= Mul(t.total, t.b)
  {
    if first {
      FirstStep(w, x);
    } else {
      var gap := s.total * Sq(x) - 2.0 * s.a * x + s.b;
      GapNonNegative(s.total, s.a, s.b, x, gap);
      GapExpansion(s.total, s.a, s.b, w, x, gap);
      ScaleOrder(w, 0.0, gap);
    }
  }

  lemma FirstStep(w: real, x: real)
    ensures Sq(0.0 + w * x) == (0.0 + w) * (0.0 + w * Sq(x))
  {
    var y := w * x;
    assert x * y == w * Sq(x);
    assert y * y == w * (x * y);
  }

  lemma SquareNonNegative(y: real)
    ensures Sq(y) >= 0.0
  {
  }

  lemma GapNonNegative(total: real, a: real, b: real, x: real, gap: real)
    requires total > 0.0 && Sq(a) <= total * b && gap == total * Sq(x) - 2.0 * a * x + b
    ensures gap >= 0.0
  {
    var y := total * x - a;
    assert Sq(y) == total * (total * Sq(x)) - 2.0 * (total * (a * x)) + Sq(a);
    SquareNonNegative(y);
    assert total * gap == Sq(y) + (total * b - Sq(a));
    if gap < 0.0 { NegativeProduct(total, gap); }
  }

  lemma GapExpansion(total: real, a: real, b: real, w: real, x: real, gap: real)
    requires gap == total * Sq(x) - 2.0 * a * x + b
    ensures (total + w) * (b + w * Sq(x)) - Sq(a + w * x) == total * b - Sq(a) + w * gap
  {
  }

  lemma NegativeProduct(a: real, b: real)
    requires a > 0.0 && b < 0.0
    ensures a * b < 0.0
  {
  }

  lemma ScaleOrder(w: real, x: real, y: real)
    requires w >= 0.0 && x <= y
    ensures w * x <= w * y
  {
    assert w * (y - x) >= 0.0;
  }

  lemma CancelOrder(total: real, x: real, y: real)
    requires total > 0.0 && total * x <= total * y
    ensures x <= y
  {
    if x > y { NegativeProduct(total, y - x); }
  }

  /** A weighted mean, scaled by the total weight, lies between scaled bounds. */
  lemma {:induction false} WeightedBounds(n: nat, w: nat -> real, c: nat -> real, lo: real, hi: real)
    requires forall i: nat | i < n :: w(i) > 0.0 && lo <= c(i) <= hi
    ensures Mul(Sum(n, w), lo) <= Sum(n, Prod(c, w)) <= Mul(Sum(n, w), hi)
  {
    if n > 0 {
      hide Mul;
      WeightedBounds(n - 1, w, c, lo, hi);
      BoundsStep(Sum(n - 1, w), Sum(n, w), Sum(n - 1, Prod(c, w)), Sum(n, Prod(c, w)), w(n - 1), c(n - 1), lo, hi);
    }
  }

  lemma BoundsStep(t: real, t': real, x: real, x': real, w: real, c: real, lo: real, hi: real)
    requires w > 0.0 && lo <= c <= hi && Mul(t, lo) <= x <= Mul(t, hi)
    requires t' == t + w && x' == x + Mul(c, w)
    ensures Mul(t', lo) <= x' <= Mul(t', hi)
  {
    ScaleOrder(w, lo, c);
    ScaleOrder(w, c, hi);
  }

  lemma {:induction false} WeightedDeviation(n: nat, w: nat -> real, c: nat -> real, m: real)
    ensures Sum(n, Prod(w, Minus(c, Const(m)))) == Sum(n, Prod(c, w)) - Mul(m, Sum(n, w))
  {
    if n > 0 {
      hide Mul;
      WeightedDeviation(n - 1, w, c, m);
      DeviationStep(w(n - 1), c(n - 1), m, Sum(n - 1, w));
    }
  }

  lemma DeviationStep(w: real, c: real, m: real, total: real)
    ensures Mul(w, c - m) == Mul(c, w) - Mul(m, w)
    ensures Mul(m, total + w) == Mul(m, total) + Mul(m, w)
  {
  }

  /** The square of the deviation of a weighted mean `mu` is at most the weighted mean
      of the squared deviations. */
  lemma {:induction false} SquaredDeviation(n: nat, w: nat -> real, c: nat -> real, mu: real, m: real)
    requires n > 0 && forall i: nat | i < n :: w(i) > 0.0
    requires Mul(Sum(n, w), mu) == Sum(n, Prod(c, w))
    ensures Mul(Sum(n, w), Sq(mu - m)) <= Sum(n, Prod(w, Squared(Minus(c, Const(m)))))
  {
    hide Mul, Sq;
    var x := Minus(c, Const(m));
    WeightedSquare(n, w, x);
    WeightedDeviation(n, w, c, m);
    CancelSquare(Sum(n, w), mu, m, Sum(n, Prod(w, x)), Sum(n, Prod(w, Squared(x))));
  }

  lemma CancelSquare(total: real, mu: real, m: real, x: real, b: real)
    requires total > 0.0 && x == Mul(total, mu) - Mul(m, total) && Sq(x) <= Mul(total, b)
    ensures Mul(total, Sq(mu - m)) <= b
  {
    assert x == total * (mu - m);
    assert Sq(x) == total * (total * Sq(mu - m));
    CancelOrder(total, total * Sq(mu - m), b);
  }

  lemma Distribute(a: real, x: real, y: real)
    ensures Mul(a, x + y) == Mul(a, x) + Mul(a, y)
  {
  }

  lemma {:induction false} ScaledSum(n: nat, a: real, f: nat -> real)
    ensures Sum(n, Scaled(a, f)) == Mul(a, Sum(n, f))
  {
    if n > 0 {
      hide Mul;
      ScaledSum(n - 1, a, f);
      Distribute(a, Sum(n - 1, f), f(n - 1));
    }
  }

  lemma {:induction false} CappedSum(n: nat, w: nat -> real, d: nat -> real, t: real)
    requires forall i: nat | i < n :: w(i) > 0.0 && d(i) <= t
    ensures Sum(n, Prod(w, d)) <= Mul(Sum(n, w), t)
  {
    if n > 0 {
      hide Mul;
      CappedSum(n - 1, w, d, t);
      CapStep(Sum(n - 1, w), Sum(n, w), Sum(n - 1, Prod(w, d)), Sum(n, Prod(w, d)), w(n - 1), d(n - 1), t);
    }
  }

  lemma CapStep(total: real, total': real, x: real, x': real, w: real, d: real, t: real)
    requires w > 0.0 && d <= t && x <= Mul(total, t) && total' == total + w && x' == x + Mul(w, d)
    ensures x' <= Mul(total', t)
  {
    ScaleOrder(w, d, t);
  }

  /** Jensen's inequality for squared distances: if every row of `c` is within squared
      distance `t` of `m`, so is their weighted mean `mu`. */
  lemma {:induction false} Jensen(n: nat, len: nat, w: nat -> real, c: (nat, nat) -> real, mu: nat -> real,
      m: nat -> real, t: real)
    requires n > 0 && forall i: nat | i < n :: w(i) > 0.0
    requires forall j: nat | j < len :: Mul(Sum(n, w), mu(j)) == Sum(n, Prod(Col(c, j), w))
    requires forall i: nat | i < n :: Sum(len, Squared(Minus(Row(c, i), m))) <= t
    ensures Sum(len, Squared(Minus(mu, m))) <= t
  {
    hide Mul, Sq;
    var q := Table(w, c, m);
    SumSwap(n, len, q);
    JensenRows(n, len, w, c, m, t);
    JensenColumns(n, len, w, c, mu, m);
    WeightedSquare(n, w, w);
    Squeeze(Sum(n, w), Sum(len, Squared(Minus(mu, m))), t, Sum(n, RowSums(q, len)));
  }

  lemma Squeeze(total: real, x: real, y: real, mid: real)
    requires total > 0.0 && Mul(total, x) <= mid <= Mul(total, y)
    ensures x <= y
  {
    CancelOrder(total, x, y);
  }

  /** The weighted squared deviations, row by row. */
  function Table(w: nat -> real, c: (nat, nat) -> real, m: nat -> real): (nat, nat) -> real {
    (i: nat, j: nat) => Mul(w(i), Sq(c(i, j) - m(j)))
  }

  lemma {:induction false} ScaledSumLe(n: nat, a: real, f: nat -> real, g: nat -> real)
    requires forall i: nat | i < n :: Mul(a, f(i)) <= g(i)
    ensures Mul(a, Sum(n, f)) <= Sum(n, g)
  {
    if n > 0 {
      hide Mul;
      ScaledSumLe(n - 1, a, f, g);
      Distribute(a, Sum(n - 1, f), f(n - 1));
    }
  }

  lemma {:induction false} JensenColumns(n: nat, len: nat, w: nat -> real, c: (nat, nat) -> real, mu: nat -> real,
      m: nat -> real)
    requires n > 0 && forall i: nat | i < n :: w(i) > 0.0
    requires forall j: nat | j < len :: Mul(Sum(n, w), mu(j)) == Sum(n, Prod(Col(c, j), w))
    ensures Mul(Sum(n, w), Sum(len, Squared(Minus(mu, m)))) <= Sum(len, ColSums(Table(w, c, m), n))
  {
    hide Mul, Sq;
    var d, cols := Squared(Minus(mu, m)), ColSums(Table(w, c, m), n);
    forall j: nat | j < len ensures Mul(Sum(n, w), d(j)) <= cols(j) {
      JensenColumn(n, w, c, mu, m, j);
    }
    ScaledSumLe(len, Sum(n, w), d, cols);
  }

  lemma {:induction false} JensenColumn(n: nat, w: nat -> real, c: (nat, nat) -> real, mu: nat -> real,
      m: nat -> real, j: nat)
    requires n > 0 && forall i: nat | i < n :: w(i) > 0.0
    requires Mul(Sum(n, w), mu(j)) == Sum(n, Prod(Col(c, j), w))
    ensures Mul(Sum(n, w), Squared(Minus(mu, m))(j)) <= ColSums(Table(w, c, m), n)(j)
  {
    hide Mul, Sq;
    SquaredDeviation(n, w, Col(c, j), mu(j), m(j));
    SumEq(n, Prod(w, Squared(Minus(Col(c, j), Const(m(j))))), Col(Table(w, c, m), j));
  }

  lemma {:induction false} JensenRows(n: nat, len: nat, w: nat -> real, c: (nat, nat) -> real, m: nat -> real, t: real)
    requires forall i: nat | i < n :: w(i) > 0.0
    requires forall i: nat | i < n :: Sum(len, Squared(Minus(Row(c, i), m))) <= t
    ensures Sum(n, RowSums(Table(w, c, m), len)) <= Mul(Sum(n, w), t)
  {
    hide Mul, Sq;
    var d := (i: nat) => Sum(len, Squared(Minus(Row(c, i), m)));
    forall i: nat | i < n ensures RowSums(Table(w, c, m), len)(i) == Prod(w, d)(i) {
      ScaledSum(len, w(i), Squared(Minus(Row(c, i), m)));
      SumEq(len, Scaled(w(i), Squared(Minus(Row(c, i), m))), Row(Table(w, c, m), i));
    }
    SumEq(n, RowSums(Table(w, c, m), len), Prod(w, d));
    CappedSum(n, w, d, t);
  }

  // ---- sorting -------------------------------------------------------------

  ghost predicate Ascending(s: seq<real>) {
    forall i, j | 0 <= i < j < |s| :: s[i] <= s[j]
  }

  function Insert(x: real, s: seq<real>): (r: seq<real>)
    ensures multiset(r) == multiset(s) + multiset{x}
  {
    if s == [] then [x]
    else if x <= s[0] then [x] + s
    else
      assert s == [s[0]] + s[1..];
      [s[0]] + Insert(x, s[1..])
  }

  lemma {:induction false} InsertAscending(x: real, s: seq<real>)
    requires Ascending(s)
    ensures Ascending(Insert(x, s))
  {
    if s != [] && x > s[0] {
      InsertAscending(x, s[1..]);
      var t := Insert(x, s[1..]);
      forall j | 0 <= j < |t| ensures s[0] <= t[j] {
        assert t[j] in multiset(t);
        assert t[j] == x || t[j] in multiset(s[1..]);
        assert t[j] == x || t[j] in s[1..];
      }
    }
  }

  /** `sorted(s)`. */
  function Sorted(s: seq<real>): (r: seq<real>)
    ensures Ascending(r)
    ensures multiset(r) == multiset(s)
    ensures |r| == |s|
  {
    if s == [] then []
    else
      assert s == [s[0]] + s[1..];
      var t := Sorted(s[1..]);
      InsertAscending(s[0], t);
      var r := Insert(s[0], t);
      assert |r| == |multiset(r)| == |multiset(s)|;
      r
  }

  lemma {:induction false} LeastFirst(a: seq<real>, b: seq<real>)
    requires Ascending(a) && multiset(a) == multiset(b) && b != []
    ensures a != [] && a[0] <= b[0]
  {
    assert b[0] in multiset(b);
    assert b[0] in a;
  }

  lemma {:induction false} TailMultiset(s: seq<real>)
    requires s != []
    ensures multiset(s[1..]) == multiset(s) - multiset{s[0]}
  {
    assert s == [s[0]] + s[1..];
  }

  lemma {:induction false} AscendingUnique(a: seq<real>, b: seq<real>)
    requires Ascending(a) && Ascending(b) && multiset(a) == multiset(b)
    ensures a == b
  {
    if a == [] {
      assert |b| == |multiset(b)| == 0;
    } else {
      assert |b| == |multiset(b)| == |multiset(a)| == |a|;
      LeastFirst(a, b);
      LeastFirst(b, a);
      TailMultiset(a);
      TailMultiset(b);
      AscendingUnique(a[1..], b[1..]);
      assert a == [a[0]] + a[1..];
      assert b == [b[0]] + b[1..];
    }
  }

  /** How many elements are at most `t`. */
  function CountLe(s: seq<real>, t: real): (c: nat)
    ensures c <= |s|
  {
    if s == [] then 0 else (if s[0] <= t then 1 else 0) + CountLe(s[1..], t)
  }

  lemma {:induction false} CountLeSplit(a: seq<real>, b: seq<real>, t: real)
    ensures CountLe(a + b, t) == CountLe(a, t) + CountLe(b, t)
  {
    if a == [] {
      assert a + b == b;
    } else {
      assert (a + b)[1..] == a[1..] + b;
      CountLeSplit(a[1..], b, t);
    }
  }

  lemma {:induction false} WithoutMultiset(b: seq<real>, k: nat)
    requires k < |b|
    ensures multiset(b[..k] + b[k + 1..]) == multiset(b) - multiset{b[k]}
  {
    assert b == b[..k] + [b[k]] + b[k + 1..];
  }

  lemma {:induction false} CountLeWithout(b: seq<real>, k: nat, t: real)
    requires k < |b|
    ensures CountLe(b, t) == CountLe(b[..k] + b[k + 1..], t) + (if b[k] <= t then 1 else 0)
  {
    CountLeSplit(b[..k], b[k + 1..], t);
    CountLeSplit(b[..k], b[k..], t);
    assert b == b[..k] + b[k..] && b[k..][1..] == b[k + 1..];
  }

  lemma {:induction false} CountLePermutation(a: seq<real>, b: seq<real>, t: real)
    requires multiset(a) == multiset(b)
    ensures CountLe(a, t) == CountLe(b, t)
  {
    if a == [] {
      assert |b| == |multiset(b)| == 0;
    } else {
      assert a[0] in multiset(b);
      var k :| 0 <= k < |b| && b[k] == a[0];
      WithoutMultiset(b, k);
      TailMultiset(a);
      CountLePermutation(a[1..], b[..k] + b[k + 1..], t);
      CountLeWithout(b, k, t);
    }
  }

  lemma {:induction false} CountLePrefix(s: seq<real>, k: nat, t: real)
    requires Ascending(s) && k < |s| && s[k] <= t
    ensures CountLe(s, t) >= k + 1
  {
    if k > 0 { CountLePrefix(s[1..], k - 1, t); }
  }

  /** The element in the middle of the sorted list (the upper one of two). */
  function Median(s: seq<real>): (m: real)
    requires s != []
    ensures m in s
  {
    var m := Sorted(s)[|s| / 2];
    assert m in multiset(Sorted(s));
    m
  }

  lemma {:induction false} CountLeBeyond(s: seq<real>, k: nat, t: real)
    requires Ascending(s) && k < |s| && s[k] > t
    ensures CountLe(s, t) <= k
  {
    if k > 0 {
      CountLeBeyond(s[1..], k - 1, t);
    } else {
      NoneLe(s, t);
    }
  }

  lemma {:induction false} NoneLe(s: seq<real>, t: real)
    requires forall i | 0 <= i < |s| :: s[i] > t
    ensures CountLe(s, t) == 0
  {
    if s != [] { NoneLe(s[1..], t); }
  }

  /** The median is at most `t` exactly when more than half of the elements are: it is the
      least number with that property. */
  lemma {:induction false} MedianMajority(s: seq<real>, t: real)
    requires s != []
    ensures Median(s) <= t <==> CountLe(s, t) >= |s| / 2 + 1
  {
    if Median(s) <= t {
      CountLePrefix(Sorted(s), |s| / 2, t);
    } else {
      CountLeBeyond(Sorted(s), |s| / 2, t);
    }
    CountLePermutation(Sorted(s), s, t);
  }

  /** How many elements are less than `t`. */
  function CountLt(s: seq<real>, t: real): nat {
    if s == [] then 0 else (if s[0] < t then 1 else 0) + CountLt(s[1..], t)
  }

  lemma {:induction false} CountLtLe(s: seq<real>, t: real, u: real)
    ensures u < t ==> CountLe(s, u) <= CountLt(s, t)
  {
    if s != [] { CountLtLe(s[1..], t, u); }
  }

  lemma {:induction false} CountLeMonotone(s: seq<real>, u: real, v: real)
    requires u <= v
    ensures CountLe(s, u) <= CountLe(s, v)
  {
    if s != [] { CountLeMonotone(s[1..], u, v); }
  }

  lemma {:induction false} JustBelow(s: seq<real>, t: real) returns (u: real)
    ensures u < t && CountLt(s, t) <= CountLe(s, u)
  {
    if s == [] {
      u := t - 1.0;
    } else {
      var v := JustBelow(s[1..], t);
      u := if s[0] < t then Max(v, s[0]) else v;
      CountLeMonotone(s[1..], v, u);
    }
  }

  /** The median is less than `t` exactly when more than half of the elements are. */
  lemma {:induction false} MedianBelow(s: seq<real>, t: real)
    requires s != []
    ensures Median(s) < t <==> CountLt(s, t) >= |s| / 2 + 1
  {
    if Median(s) < t {
      MedianMajority(s, Median(s));
      CountLtLe(s, t, Median(s));
    } else {
      var u := JustBelow(s, t);
      MedianMajority(s, u);
    }
  }

  lemma MulSplit(a: real, b: real, r: real)
    ensures Mul(a + b, r) == Mul(a, r) + Mul(b, r)
  {
  }

  lemma MulOrder(a: real, b: real, r: real)
    requires r > 0.0
    ensures a <= b <==> Mul(a, r) <= Mul(b, r)
    ensures Mul(0.0, r) == 0.0
  {
    if a <= b { ScaleOrder(r, a, b); }
    if Mul(a, r) <= Mul(b, r) { CancelOrder(r, a, b); }
  }

  lemma DivMul(x: real, r: real)
    requires r > 0.0
    ensures Mul(x / r, r) == x
  {
  }
}
