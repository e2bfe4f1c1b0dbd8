/** The whole pure-Python aggregation path: collect comparable vectors, filter, average,
    and give the average back in the shape of the payloads. */
module GradientAggregation {
  import opened Sums
  import opened GradientCodec
  import opened RobustAggregation

  /** One entry of `node_gradients`, in dictionary order. */
  datatype Report = Report(node: string, payload: Payload)

  datatype Aggregate = Aggregate(
    byzantineNodes: seq<string>,
    sourceNodes: seq<string>,
    sourceWeights: map<string, real>,
    weights: seq<real>,
    parameters: Payload)

  /** `Deferred` is the `None` that hands the payloads to the tensor path. */
  datatype Outcome = NoGradients | Deferred | Aggregated(detected: bool, result: Aggregate)

  datatype Collected = Collected(points: seq<Point>, spec: Spec)

  /** A compressed payload is read through its uncompressed fallback. */
  function Effective(p: Payload): Payload {
    if "compression" in p && p["compression"] == Str("dgc") && "raw_fallback" in p && p["raw_fallback"].Dict?
    then p["raw_fallback"].entries else p
  }

  function Encoded(r: Report): Point {
    Point(r.node, PayloadVector(Effective(r.payload)))
  }

  /** The spec is empty until a payload holds a number, and then stays. */
  function CollectOne(c: Collected, r: Report): Collected {
    var vector, spec := Encoded(r).vector, PayloadSpec(Effective(r.payload));
    if vector == [] then c
    else
      var first := if c.spec == [] then spec else c.spec;
      Collected(if spec == first then c.points + [Encoded(r)] else c.points, first)
  }

  function Collect(reports: seq<Report>): Collected {
    if reports == [] then Collected([], [])
    else CollectOne(Collect(reports[..|reports| - 1]), reports[|reports| - 1])
  }

  predicate SameLength(ps: seq<Point>) {
    forall i | 0 <= i < |ps| :: |ps[i].vector| == |ps[0].vector|
  }

  function Nodes(ps: seq<Point>): (nodes: seq<string>)
    ensures |nodes| == |ps|
    ensures forall i | 0 <= i < |ps| :: nodes[i] == ps[i].node
  {
    seq(|ps|, i requires 0 <= i < |ps| => ps[i].node)
  }

  function Combine(ps: seq<Point>, spec: Spec, nodeWeights: map<string, real>): Outcome
    requires ps != []
  {
    var len := |ps[0].vector|;
    var byzantine := Byzantine(ps, len);
    var clean := Clean(ps, len);
    var mean := WeightedMean(clean, nodeWeights, len);
    Aggregated(byzantine != [], Aggregate(
      byzantine, Nodes(clean),
      map i | i in Nodes(clean) :: if i in nodeWeights then Max(MIN_WEIGHT, nodeWeights[i]) else 1.0,
      mean, FromVector(mean, spec)))
  }

  function Detect(reports: seq<Report>, nodeWeights: map<string, real>): Outcome {
    if reports == [] then NoGradients
    else
      var c := Collect(reports);
      if c.points == [] || |c.points| < |reports| || !SameLength(c.points) then Deferred
      else Combine(c.points, c.spec, nodeWeights)
  }

  method DetectByzantineGradients(reports: seq<Report>, nodeWeights: map<string, real>) returns (o: Outcome)
    ensures o == Detect(reports, nodeWeights)
  {
    if reports == [] { return NoGradients; }
    var points: seq<Point>, spec: Spec := [], [];
    for i := 0 to |reports|
      invariant Collected(points, spec) == Collect(reports[..i])
    {
      assert reports[..i + 1][..i] == reports[..i];
      var vector, itsSpec := PayloadToVector(Effective(reports[i].payload));
      if vector != [] {
        if spec == [] { spec := itsSpec; }
        if itsSpec == spec { points := points + [Point(reports[i].node, vector)]; }
      }
    }
    assert reports[..|reports|] == reports;
    if points == [] || |points| < |reports| { return Deferred; }
    if !SameLength(points) { return Deferred; }
    o := Combine(points, spec, nodeWeights);
  }

  // ---- the mean of equally shaped values, leaf by leaf -----------------------

  ghost predicate Alike(ts: seq<Json>, shape: Shape) {
    forall i | 0 <= i < |ts| :: Numeric(ts[i]) && ShapeOf(ts[i]) == shape
  }

  function Nums(ts: seq<Json>): nat -> real {
    (i: nat) => if i < |ts| && ts[i].Num? then ts[i].x else 0.0
  }

  ghost function Children(ts: seq<Json>, shapes: seq<Shape>, k: nat): (r: seq<Json>)
    requires k < |shapes| && Alike(ts, Node(shapes))
    ensures Alike(r, shapes[k]) && |r| == |ts|
  {
    seq(|ts|, i requires 0 <= i < |ts| => ts[i].items[k])
  }

  /** The independent reference: every leaf is the weighted mean of the leaves at the
      same place. */
  ghost function LeafMean(ts: seq<Json>, w: nat -> real, shape: Shape): Json
    requires Alike(ts, shape) && Sum(|ts|, w) > 0.0
    decreases shape
  {
    match shape
    case Leaf => Num(Sum(|ts|, Prod(Nums(ts), w)) / Sum(|ts|, w))
    case Node(shapes) =>
      List(seq(|shapes|, k requires 0 <= k < |shapes| => LeafMean(Children(ts, shapes, k), w, shapes[k])))
  }

  function Column(vs: seq<seq<real>>, j: nat): nat -> real {
    (i: nat) => if i < |vs| then At(vs[i], j) else 0.0
  }

  function MeanVec(vs: seq<seq<real>>, w: nat -> real, len: nat): (r: seq<real>)
    requires Sum(|vs|, w) > 0.0
    ensures |r| == len
  {
    seq(len, (j: nat) => Sum(|vs|, Prod(Column(vs, j), w)) / Sum(|vs|, w))
  }

  lemma {:induction false} MeanVecAppend(a: seq<seq<real>>, b: seq<seq<real>>, c: seq<seq<real>>, w: nat -> real,
      la: nat, lb: nat)
    requires |a| == |b| == |c| && Sum(|a|, w) > 0.0
    requires forall i | 0 <= i < |a| :: |a[i]| == la && |b[i]| == lb && c[i] == a[i] + b[i]
    ensures MeanVec(c, w, la + lb) == MeanVec(a, w, la) + MeanVec(b, w, lb)
  {
    hide Mul;
    var whole, parts := MeanVec(c, w, la + lb), MeanVec(a, w, la) + MeanVec(b, w, lb);
    forall j: nat | j < la + lb ensures whole[j] == parts[j] {
      SumEq(|a|, Prod(Column(c, j), w), if j < la then Prod(Column(a, j), w) else Prod(Column(b, j - la), w));
    }
    assert whole == parts;
  }

  ghost function Flats(ts: seq<Json>): (r: seq<seq<real>>)
    ensures |r| == |ts|
  {
    seq(|ts|, i requires 0 <= i < |ts| => Flat(ts[i]))
  }

  ghost function FlatsUpTo(ts: seq<Json>, shapes: seq<Shape>, k: nat): (r: seq<seq<real>>)
    requires k <= |shapes| && Alike(ts, Node(shapes))
    ensures |r| == |ts|
  {
    seq(|ts|, i requires 0 <= i < |ts| => FlatAll(ts[i].items[..k]))
  }

  lemma {:induction false} FlatLengths(ts: seq<Json>, shape: Shape)
    requires Alike(ts, shape)
    ensures forall i | 0 <= i < |ts| :: |Flat(ts[i])| == Size(shape)
  {
    forall i | 0 <= i < |ts| ensures |Flat(ts[i])| == Size(shape) {
      SizeIsLengthIffNumeric(ts[i]);
    }
  }

  /** Averaging the flat vectors is averaging the leaves. */
  lemma {:induction false} FlatOfLeafMean(ts: seq<Json>, w: nat -> real, shape: Shape)
    requires Alike(ts, shape) && Sum(|ts|, w) > 0.0
    ensures Numeric(LeafMean(ts, w, shape)) && ShapeOf(LeafMean(ts, w, shape)) == shape
    ensures Flat(LeafMean(ts, w, shape)) == MeanVec(Flats(ts), w, Size(shape))
    decreases shape
  {
    hide Mul;
    match shape
    case Leaf =>
      SumEq(|ts|, Prod(Nums(ts), w), Prod(Column(Flats(ts), 0), w));
    case Node(shapes) =>
      var items := LeafMean(ts, w, shape).items;
      forall k | 0 <= k < |shapes|
        ensures Numeric(items[k]) && ShapeOf(items[k]) == shapes[k]
        ensures Flat(items[k]) == MeanVec(Flats(Children(ts, shapes, k)), w, Size(shapes[k]))
      {
        FlatOfLeafMean(Children(ts, shapes, k), w, shapes[k]);
      }
      assert ShapesOf(items) == shapes;
      FlatOfItems(ts, w, shapes, items, |shapes|);
      assert items[..|shapes|] == items && shapes[..|shapes|] == shapes;
      WholeFlats(ts, shapes);
  }

  lemma {:induction false} WholeFlats(ts: seq<Json>, shapes: seq<Shape>)
    requires Alike(ts, Node(shapes))
    ensures FlatsUpTo(ts, shapes, |shapes|) == Flats(ts)
  {
    forall i | 0 <= i < |ts| ensures FlatsUpTo(ts, shapes, |shapes|)[i] == Flats(ts)[i] {
      assert ts[i].items[..|shapes|] == ts[i].items;
    }
  }

  lemma {:induction false} FlatOfItems(ts: seq<Json>, w: nat -> real, shapes: seq<Shape>, items: seq<Json>, k: nat)
    requires k <= |shapes| == |items| && Alike(ts, Node(shapes)) && Sum(|ts|, w) > 0.0
    requires forall j | 0 <= j < k :: Flat(items[j]) == MeanVec(Flats(Children(ts, shapes, j)), w, Size(shapes[j]))
    ensures FlatAll(items[..k]) == MeanVec(FlatsUpTo(ts, shapes, k), w, SizeAll(shapes[..k]))
    ensures forall i | 0 <= i < |ts| :: |FlatsUpTo(ts, shapes, k)[i]| == SizeAll(shapes[..k])
    decreases k
  {
    if k > 0 {
      FlatOfItems(ts, w, shapes, items, k - 1);
      FlatAllPrefix(items, k - 1);
      UnflatAllAt([], shapes, k - 1);
      ExtendFlats(ts, shapes, k - 1);
      MeanVecAppend(FlatsUpTo(ts, shapes, k - 1), Flats(Children(ts, shapes, k - 1)), FlatsUpTo(ts, shapes, k), w,
                    SizeAll(shapes[..k - 1]), Size(shapes[k - 1]));
    }
  }

  lemma {:induction false} ExtendFlats(ts: seq<Json>, shapes: seq<Shape>, k: nat)
    requires k < |shapes| && Alike(ts, Node(shapes))
    ensures forall i | 0 <= i < |ts| ::
      && |Flats(Children(ts, shapes, k))[i]| == Size(shapes[k])
      && FlatsUpTo(ts, shapes, k + 1)[i] == FlatsUpTo(ts, shapes, k)[i] + Flats(Children(ts, shapes, k))[i]
  {
    FlatLengths(Children(ts, shapes, k), shapes[k]);
    forall i | 0 <= i < |ts|
      ensures FlatsUpTo(ts, shapes, k + 1)[i] == FlatsUpTo(ts, shapes, k)[i] + Flats(Children(ts, shapes, k))[i]
    {
      FlatAllPrefix(ts[i].items, k);
    }
  }

  /** For values whose leaves are all numbers: flatten, average, unflatten is exactly
      the leaf-by-leaf mean with the original nesting. */
  lemma {:induction false} UnflatOfMean(ts: seq<Json>, w: nat -> real, shape: Shape)
    requires Alike(ts, shape) && Sum(|ts|, w) > 0.0
    ensures Unflat(MeanVec(Flats(ts), w, Size(shape)), shape) == LeafMean(ts, w, shape)
  {
    FlatOfLeafMean(ts, w, shape);
    UnflatOfFlat(LeafMean(ts, w, shape));
  }

  // ---- from values to payloads ------------------------------------------------

  ghost predicate SpecWithin(p: Payload, spec: Spec) {
    forall q | 0 <= q < |spec| :: spec[q].0 in p && ShapeOf(p[spec[q].0]) == spec[q].1 && Flat(p[spec[q].0]) != []
  }

  ghost predicate SpecDistinct(spec: Spec) {
    forall q, r | 0 <= q < r < |spec| :: spec[q].0 != spec[r].0
  }

  ghost function Shapes(spec: Spec): (r: seq<Shape>)
    ensures |r| == |spec|
  {
    seq(|spec|, q requires 0 <= q < |spec| => spec[q].1)
  }

  ghost function Values(p: Payload, spec: Spec): (r: seq<Json>)
    requires SpecWithin(p, spec)
    ensures |r| == |spec|
  {
    seq(|spec|, q requires 0 <= q < |spec| => p[spec[q].0])
  }

  lemma {:induction false} SpecFacts(p: Payload, names: seq<string>)
    requires forall k | k in names :: k in p
    requires forall i, j | 0 <= i < j < |names| :: names[i] != names[j]
    ensures var spec := SpecOf(p, names);
      && SpecWithin(p, spec) && SpecDistinct(spec)
      && (forall q | 0 <= q < |spec| :: spec[q].0 in names)
      && Vector(p, names) == FlatAll(Values(p, spec))
  {
    if names != [] {
      var name, rest := names[0], SpecOf(p, names[1..]);
      SpecFacts(p, names[1..]);
      if Flat(p[name]) != [] {
        var spec := [(name, ShapeOf(p[name]))] + rest;
        assert forall q | 0 < q < |spec| :: spec[q] == rest[q - 1];
        assert name !in names[1..];
        assert Values(p, spec)[1..] == Values(p, rest);
      } else {
        assert Flat(p[name]) + Vector(p, names[1..]) == Vector(p, names[1..]);
      }
    }
  }

  lemma {:induction false} FromVectorAt(vector: seq<real>, spec: Spec, q: nat)
    requires SpecDistinct(spec) && q < |spec|
    ensures spec[q].0 in FromVector(vector, spec)
    ensures FromVector(vector, spec)[spec[q].0] == UnflatAll(vector, Shapes(spec))[q]
    decreases q
  {
    var rest := Drop(vector, Size(spec[0].1));
    assert Shapes(spec)[1..] == Shapes(spec[1..]);
    if q == 0 {
      FromVectorNames(rest, spec[1..], spec[0].0);
    } else {
      assert spec[1..][q - 1] == spec[q];
      FromVectorAt(rest, spec[1..], q - 1);
    }
  }

  lemma {:induction false} FromVectorNames(vector: seq<real>, spec: Spec, name: string)
    requires forall q | 0 <= q < |spec| :: spec[q].0 != name
    ensures name !in FromVector(vector, spec)
    decreases spec
  {
    if spec != [] { FromVectorNames(Drop(vector, Size(spec[0].1)), spec[1..], name); }
  }

  // ---- the end-to-end statement --------------------------------------------------

  ghost predicate DistinctReports(reports: seq<Report>) {
    forall i, j | 0 <= i < j < |reports| :: reports[i].node != reports[j].node
  }

  /** Every entry that holds a number holds nothing but numbers. */
  ghost predicate PureNumbers(reports: seq<Report>) {
    forall i, k | 0 <= i < |reports| && k in Holding(Effective(reports[i].payload)) ::
      Numeric(Effective(reports[i].payload)[k])
  }

  ghost function Survivors(reports: seq<Report>, byzantine: seq<string>): (r: seq<Report>)
    ensures forall x | x in r :: x in reports
  {
    if reports == [] then []
    else (if reports[0].node !in byzantine then [reports[0]] else []) + Survivors(reports[1..], byzantine)
  }

  ghost function Encodeds(reports: seq<Report>): (r: seq<Point>)
    ensures |r| == |reports|
  {
    seq(|reports|, i requires 0 <= i < |reports| => Encoded(reports[i]))
  }

  lemma {:induction false} EncodedsCons(r: Report, reports: seq<Report>)
    ensures Encodeds([r] + reports) == [Encoded(r)] + Encodeds(reports)
  {
    hide PayloadVector, Effective;
  }

  lemma {:induction false} NodeOf(r: Report)
    ensures Encoded(r).node == r.node
  {
  }

  lemma {:induction false} WithoutEncoded(reports: seq<Report>, byzantine: seq<string>)
    ensures Without(Encodeds(reports), byzantine) == Encodeds(Survivors(reports, byzantine))
  {
    hide PayloadVector, Effective;
    if reports == [] {
      assert Encodeds([]) == [];
    } else {
      hide Encodeds, Encoded;
      var r, rest := reports[0], reports[1..];
      WithoutEncoded(rest, byzantine);
      assert reports == [r] + rest;
      EncodedsCons(r, rest);
      var ps := Encodeds(reports);
      assert ps[0] == Encoded(r) && ps[1..] == Encodeds(rest);
      NodeOf(r);
      if r.node in byzantine {
        assert Survivors(reports, byzantine) == Survivors(rest, byzantine);
      } else {
        EncodedsCons(r, Survivors(rest, byzantine));
      }
    }
  }

  lemma {:induction false} CollectAtMostAll(reports: seq<Report>)
    ensures |Collect(reports).points| <= |reports|
  {
    hide PayloadVector, PayloadSpec, Effective;
    if reports != [] { CollectAtMostAll(reports[..|reports| - 1]); }
  }

  ghost predicate SpecMatches(r: Report, spec: Spec) {
    PayloadSpec(Effective(r.payload)) == spec && spec != []
  }

  /** When no payload was passed over, the points are the payloads encoded, in order,
      all under one spec. */
  lemma {:induction false} CollectAll(reports: seq<Report>)
    requires |Collect(reports).points| == |reports|
    ensures Collect(reports).points == Encodeds(reports)
    ensures forall r | r in reports :: SpecMatches(r, Collect(reports).spec)
  {
    if reports != [] {
      hide PayloadVector, PayloadSpec, Effective;
      var before, last := reports[..|reports| - 1], reports[|reports| - 1];
      CollectAtMostAll(before);
      assert reports == before + [last];
      CollectStep(Collect(before), last);
      CollectAll(before);
      assert Encodeds(reports) == Encodeds(before) + [Encoded(last)];
      assert before != [] ==> SpecMatches(before[0], Collect(before).spec);
    }
  }

  lemma {:induction false} CollectStep(c: Collected, r: Report)
    requires |CollectOne(c, r).points| == |c.points| + 1
    ensures CollectOne(c, r).points == c.points + [Encoded(r)]
    ensures SpecMatches(r, CollectOne(c, r).spec)
    ensures c.spec != [] ==> CollectOne(c, r).spec == c.spec
  {
    hide PayloadVector, PayloadSpec, Effective;
    NonEmptySpec(Effective(r.payload));
  }

  lemma {:induction false} NonEmptySpec(p: Payload)
    ensures PayloadVector(p) != [] ==> PayloadSpec(p) != []
  {
    SpecFacts(p, SortedNames(p.Keys));
  }

  ghost function Names(reports: seq<Report>): (r: seq<string>)
    ensures |r| == |reports|
  {
    seq(|reports|, i requires 0 <= i < |reports| => reports[i].node)
  }

  /** What the surviving payloads hold under `name`. */
  ghost function Entries(reports: seq<Report>, name: string): (r: seq<Json>)
    ensures |r| == |reports|
  {
    seq(|reports|, i requires 0 <= i < |reports| =>
      var p := Effective(reports[i].payload); if name in p then p[name] else Null)
  }

  /** All of them hold numbers only, in one nesting, and together they weigh something. */
  ghost predicate Comparable(reports: seq<Report>, nodeWeights: map<string, real>, name: string) {
    var ts := Entries(reports, name);
    ts != [] && Alike(ts, ShapeOf(ts[0])) && Sum(|ts|, Weights(Encodeds(reports), nodeWeights)) > 0.0
  }

  ghost function EntryMean(reports: seq<Report>, nodeWeights: map<string, real>, name: string): Json
    requires Comparable(reports, nodeWeights, name)
  {
    var ts := Entries(reports, name);
    LeafMean(ts, Weights(Encodeds(reports), nodeWeights), ShapeOf(ts[0]))
  }

  ghost function Trees(reports: seq<Report>, spec: Spec): (r: seq<Json>)
    requires forall i | 0 <= i < |reports| :: SpecWithin(Effective(reports[i].payload), spec)
    ensures |r| == |reports|
  {
    seq(|reports|, i requires 0 <= i < |reports| => List(Values(Effective(reports[i].payload), spec)))
  }

  lemma {:induction false} TreesAlike(reports: seq<Report>, spec: Spec)
    requires PureNumbers(reports)
    requires forall r | r in reports :: SpecMatches(r, spec)
    ensures SpecDistinct(spec) || reports == []
    ensures forall i | 0 <= i < |reports| :: SpecWithin(Effective(reports[i].payload), spec)
    ensures Alike(Trees(reports, spec), Node(Shapes(spec)))
    ensures forall i | 0 <= i < |reports| :: Flat(Trees(reports, spec)[i]) == Encoded(reports[i]).vector
  {
    forall i | 0 <= i < |reports|
      ensures SpecWithin(Effective(reports[i].payload), spec) && SpecDistinct(spec)
      ensures var t := List(Values(Effective(reports[i].payload), spec));
        Numeric(t) && ShapeOf(t) == Node(Shapes(spec)) && Flat(t) == Encoded(reports[i]).vector
    {
      var p := Effective(reports[i].payload);
      assert SpecMatches(reports[i], spec);
      SpecFacts(p, SortedNames(p.Keys));
      assert forall q | 0 <= q < |spec| :: spec[q].0 in Holding(p);
      assert ShapesOf(Values(p, spec)) == Shapes(spec);
    }
    assert reports != [] ==> SpecWithin(Effective(reports[0].payload), spec) && SpecDistinct(spec);
    assert forall i | 0 <= i < |reports| ::
      Trees(reports, spec)[i] == List(Values(Effective(reports[i].payload), spec));
  }

  lemma {:induction false} MeanIsMeanVec(reports: seq<Report>, ts: seq<Json>, nodeWeights: map<string, real>, len: nat)
    requires reports != [] && |ts| == |reports|
    requires forall i | 0 <= i < |reports| :: Flat(ts[i]) == Encoded(reports[i]).vector
    ensures Sum(|ts|, Weights(Encodeds(reports), nodeWeights)) > 0.0
    ensures WeightedMean(Encodeds(reports), nodeWeights, len)
         == MeanVec(Flats(ts), Weights(Encodeds(reports), nodeWeights), len)
  {
    hide Mul;
    var ps := Encodeds(reports);
    var w := Weights(ps, nodeWeights);
    assert Sum(|ps|, w) == TotalWeight(ps, nodeWeights);
    var a, b := WeightedMean(ps, nodeWeights, len), MeanVec(Flats(ts), w, len);
    forall j: nat | j < len ensures a[j] == b[j] {
      SumEq(|ps|, Prod(Col(Coords(ps), j), w), Prod(Column(Flats(ts), j), w));
    }
    assert a == b;
  }

  /** Averaging the vectors of equally shaped payloads and decoding gives, under every
      name, the leaf-by-leaf mean of what the payloads hold there. */
  lemma {:induction false} DecodedMean(reports: seq<Report>, spec: Spec, nodeWeights: map<string, real>, len: nat,
      q: nat)
    requires reports != [] && PureNumbers(reports) && q < |spec|
    requires forall r | r in reports :: SpecMatches(r, spec)
    requires len == |Encoded(reports[0]).vector|
    ensures var p := FromVector(WeightedMean(Encodeds(reports), nodeWeights, len), spec);
      && Comparable(reports, nodeWeights, spec[q].0)
      && spec[q].0 in p && p[spec[q].0] == EntryMean(reports, nodeWeights, spec[q].0)
  {
    TreesAlike(reports, spec);
    var ts, shapes, w := Trees(reports, spec), Shapes(spec), Weights(Encodeds(reports), nodeWeights);
    MeanIsMeanVec(reports, ts, nodeWeights, len);
    FlatLengths(ts, Node(shapes));
    assert Flat(ts[0]) == Encoded(reports[0]).vector;
    UnflatOfMean(ts, w, Node(shapes));
    FromVectorAt(WeightedMean(Encodeds(reports), nodeWeights, len), spec, q);
    hide FromVector, WeightedMean, Weights, Flat, MeanVec, Encoded;
    assert Children(ts, shapes, q) == Entries(reports, spec[q].0);
    assert ShapeOf(Entries(reports, spec[q].0)[0]) == shapes[q];
  }

  /** End to end: when every payload entry that holds a number holds nothing else, the
      returned parameters carry the names that hold numbers, and under each name the
      weighted leaf-by-leaf mean over the surviving nodes, in the original nesting. */
  lemma {:induction false} ParametersAreLeafMeans(reports: seq<Report>, nodeWeights: map<string, real>)
    requires DistinctReports(reports) && PureNumbers(reports)
    ensures Detect(reports, nodeWeights).Aggregated? ==>
      var result := Detect(reports, nodeWeights).result;
      var kept := Survivors(reports, result.byzantineNodes);
      && |kept| >= |reports| / 2 + 1
      && result.sourceNodes == Names(kept)
      && result.parameters.Keys == Holding(Effective(reports[0].payload)).Keys
      && forall name | name in result.parameters ::
           && Comparable(kept, nodeWeights, name)
           && result.parameters[name] == EntryMean(kept, nodeWeights, name)
  {
    if !Detect(reports, nodeWeights).Aggregated? { return; }
    var c := Collect(reports);
    var len, byzantine, kept := Kept(reports, nodeWeights);
    var mean := WeightedMean(Encodeds(kept), nodeWeights, len);
    NamesEncoded(kept);
    ParameterNames(reports, c.spec, mean);
    forall name | name in FromVector(mean, c.spec)
      ensures Comparable(kept, nodeWeights, name)
      ensures FromVector(mean, c.spec)[name] == EntryMean(kept, nodeWeights, name)
    {
      FromVectorIndex(mean, c.spec, name);
      var q :| 0 <= q < |c.spec| && c.spec[q].0 == name;
      DecodedMean(kept, c.spec, nodeWeights, len, q);
    }
  }

  lemma {:induction false} NamesEncoded(reports: seq<Report>)
    ensures Nodes(Encodeds(reports)) == Names(reports)
  {
    hide PayloadVector, Effective;
  }

  lemma {:induction false} ParameterNames(reports: seq<Report>, spec: Spec, mean: seq<real>)
    requires reports != [] && SpecMatches(reports[0], spec)
    ensures FromVector(mean, spec).Keys == Holding(Effective(reports[0].payload)).Keys
  {
    var p := Effective(reports[0].payload);
    FromVectorKeys(mean, p, SortedNames(p.Keys));
    assert HoldingNames(p, SortedNames(p.Keys)) == Holding(p);
  }

  /** What an aggregating call worked on: the common length, the rejected nodes and the
      surviving reports. */
  lemma {:induction false} Kept(reports: seq<Report>, nodeWeights: map<string, real>)
    returns (len: nat, byzantine: seq<string>, kept: seq<Report>)
    requires DistinctReports(reports) && PureNumbers(reports)
    requires Detect(reports, nodeWeights).Aggregated?
    ensures |kept| >= |reports| / 2 + 1 && kept == Survivors(reports, byzantine)
    ensures PureNumbers(kept) && len == |Encoded(kept[0]).vector|
    ensures reports != [] && forall r | r in reports :: SpecMatches(r, Collect(reports).spec)
    ensures forall r | r in kept :: SpecMatches(r, Collect(reports).spec)
    ensures var result := Detect(reports, nodeWeights).result;
      && result.byzantineNodes == byzantine
      && result.sourceNodes == Nodes(Encodeds(kept))
      && result.parameters == FromVector(WeightedMean(Encodeds(kept), nodeWeights, len), Collect(reports).spec)
  {
    hide PayloadVector, Effective, PayloadSpec, WeightedMean, FromVector, Byzantine;
    var c := Collect(reports);
    CollectAtMostAll(reports);
    CollectAll(reports);
    len := |c.points[0].vector|;
    byzantine := Byzantine(c.points, len);
    kept := Survivors(reports, byzantine);
    forall i, j | 0 <= i < j < |c.points| ensures c.points[i].node != c.points[j].node {
      assert reports[i].node != reports[j].node;
    }
    MajoritySurvives(c.points, len);
    WithoutEncoded(reports, byzantine);
    KeptFacts(reports, kept, c.spec);
    assert kept[0] in reports;
    var k :| 0 <= k < |reports| && reports[k] == kept[0];
    assert c.points[k] == Encoded(kept[0]);
  }

  lemma {:induction false} KeptFacts(reports: seq<Report>, kept: seq<Report>, spec: Spec)
    requires PureNumbers(reports) && forall r | r in kept :: r in reports
    requires forall r | r in reports :: SpecMatches(r, spec)
    ensures PureNumbers(kept) && forall r | r in kept :: SpecMatches(r, spec)
  {
    forall i, k | 0 <= i < |kept| && k in Holding(Effective(kept[i].payload))
      ensures Numeric(Effective(kept[i].payload)[k])
    {
      assert kept[i] in reports;
      var j :| 0 <= j < |reports| && reports[j] == kept[i];
    }
  }

  lemma {:induction false} FromVectorIndex(vector: seq<real>, spec: Spec, name: string)
    requires name in FromVector(vector, spec)
    ensures exists q :: 0 <= q < |spec| && spec[q].0 == name
    decreases spec
  {
    if spec[0].0 == name {
      assert 0 <= 0 < |spec|;
    } else {
      FromVectorIndex(Drop(vector, Size(spec[0].1)), spec[1..], name);
      var q :| 0 <= q < |spec[1..]| && spec[1..][q].0 == name;
      assert spec[q + 1].0 == name;
    }
  }

  /** What an aggregating call returns: the rejected nodes are exactly those farther from
      the mean of all vectors than the threshold, and the weighted mean of the others is
      itself no farther, whatever the weights. */
  lemma {:induction false} ResultNearMean(reports: seq<Report>, nodeWeights: map<string, real>)
    requires DistinctReports(reports)
    ensures Detect(reports, nodeWeights).Aggregated? ==>
      var ps := Encodeds(reports);
      && ps != []
      && var m := Means(ps, |ps[0].vector|);
      && var t := Threshold2(Dists2(ps, m));
      && var result := Detect(reports, nodeWeights).result;
      && |result.weights| == |m| && Dist2(result.weights, m) <= t
      && forall i | 0 <= i < |ps| :: reports[i].node in result.byzantineNodes <==> Dist2(ps[i].vector, m) > t
  {
    if !Detect(reports, nodeWeights).Aggregated? { return; }
    hide PayloadVector, Effective, PayloadSpec, WeightedMean, FromVector, Dist2, Threshold2, Means;
    var c := Collect(reports);
    CollectAtMostAll(reports);
    CollectAll(reports);
    var ps, len := c.points, |c.points[0].vector|;
    forall i, j | 0 <= i < j < |ps| ensures ps[i].node != ps[j].node {
      assert reports[i].node != reports[j].node;
    }
    assert Width(ps, len);
    AggregateNearMean(ps, nodeWeights, len);
    FarIffBeyond(ps, Means(ps, len), Threshold2(Dists2(ps, Means(ps, len))));
    if |ps| <= 3 { FewAreNeverFar(ps, len); }
  }

  /** Each coordinate of what a call returns lies between any bounds of the surviving
      values at that coordinate. */
  lemma {:induction false} ResultInHull(reports: seq<Report>, nodeWeights: map<string, real>, j: nat, lo: real,
      hi: real)
    requires DistinctReports(reports)
    ensures Detect(reports, nodeWeights).Aggregated? ==>
      var result := Detect(reports, nodeWeights).result;
      var kept := Encodeds(Survivors(reports, result.byzantineNodes));
      && kept != []
      && (j < |result.weights| && (forall i: nat | i < |kept| :: lo <= Coord(kept, i, j) <= hi) ==>
            lo <= result.weights[j] <= hi)
  {
    hide PayloadVector, Effective, PayloadSpec, WeightedMean, FromVector, Byzantine, Coord;
    if !Detect(reports, nodeWeights).Aggregated? { return; }
    var c := Collect(reports);
    CollectAtMostAll(reports);
    CollectAll(reports);
    var ps, len := c.points, |c.points[0].vector|;
    forall i, k | 0 <= i < k < |ps| ensures ps[i].node != ps[k].node {
      assert reports[i].node != reports[k].node;
    }
    MajoritySurvives(ps, len);
    WithoutEncoded(reports, Byzantine(ps, len));
    var kept := Clean(ps, len);
    if j < len && forall i: nat | i < |kept| :: lo <= Coord(kept, i, j) <= hi {
      AggregateInHull(kept, nodeWeights, len, j, lo, hi);
    }
  }

  // ---- exactly when, and exactly what --------------------------------------------------

  /** A payload with an uncompressed fallback is read as that fallback, any other as it is. */
  lemma FallbackRead(p: Payload, q: Payload)
    ensures p == q["compression" := Str("dgc")]["raw_fallback" := Dict(q)] ==> Effective(p) == q
    ensures "compression" !in p || "raw_fallback" !in p ==> Effective(p) == p
  {
  }

  /** All payloads hold numbers, under the same names in the same nesting, and as many. */
  ghost predicate OneKind(reports: seq<Report>) {
    forall r | r in reports ::
      && PayloadVector(Effective(r.payload)) != []
      && PayloadSpec(Effective(r.payload)) == PayloadSpec(Effective(reports[0].payload))
      && |PayloadVector(Effective(r.payload))| == |PayloadVector(Effective(reports[0].payload))|
  }

  lemma {:induction false} CollectOneKind(reports: seq<Report>, n: nat)
    requires n <= |reports| && OneKind(reports)
    ensures Collect(reports[..n]).points == Encodeds(reports[..n])
    ensures n > 0 ==> Collect(reports[..n]).spec == PayloadSpec(Effective(reports[0].payload))
    ensures n == 0 ==> Collect(reports[..n]).spec == []
  {
    hide PayloadVector, PayloadSpec, Effective;
    if n > 0 {
      CollectOneKind(reports, n - 1);
      var last := reports[n - 1];
      assert reports[..n][..n - 1] == reports[..n - 1] && last in reports;
      NonEmptySpec(Effective(reports[0].payload));
      assert reports[0] in reports;
      assert Encodeds(reports[..n]) == Encodeds(reports[..n - 1]) + [Encoded(last)];
    }
  }

  lemma {:induction false} SameLengths(reports: seq<Report>)
    requires reports != []
    ensures SameLength(Encodeds(reports)) <==>
      forall r | r in reports ::
        |PayloadVector(Effective(r.payload))| == |PayloadVector(Effective(reports[0].payload))|
  {
    hide PayloadVector, PayloadSpec, Effective;
    var ps := Encodeds(reports);
    assert forall i | 0 <= i < |reports| :: ps[i].vector == PayloadVector(Effective(reports[i].payload));
  }

  /** The pure path answers exactly when all payloads are of one kind, and hands anything
      else over. */
  lemma {:induction false} AggregatedIff(reports: seq<Report>, nodeWeights: map<string, real>)
    ensures Detect(reports, nodeWeights).NoGradients? <==> reports == []
    ensures Detect(reports, nodeWeights).Aggregated? <==> reports != [] && OneKind(reports)
  {
    hide PayloadVector, PayloadSpec, Effective, Combine, SameLength;
    if reports != [] {
      SameLengths(reports);
      if OneKind(reports) {
        CollectOneKind(reports, |reports|);
        assert reports[..|reports|] == reports;
      }
      var c := Collect(reports);
      CollectAtMostAll(reports);
      if |c.points| == |reports| {
        CollectAll(reports);
        forall r | r in reports ensures PayloadVector(Effective(r.payload)) != [] { PointsHold(reports, r); }
        assert reports[0] in reports;
      }
      if c.points != [] { CombineAggregates(c, nodeWeights); }
    }
  }

  lemma {:induction false} PointsHold(reports: seq<Report>, r: Report)
    requires r in reports && |Collect(reports).points| == |reports|
    ensures PayloadVector(Effective(r.payload)) != []
  {
    hide PayloadVector, PayloadSpec, Effective;
    var before, last := reports[..|reports| - 1], reports[|reports| - 1];
    CollectAtMostAll(before);
    assert reports == before + [last];
    assert |CollectOne(Collect(before), last).points| == |reports|;
    assert |Collect(before).points| == |before|;
    if r != last {
      assert r in before;
      PointsHold(before, r);
    }
  }

  lemma CombineAggregates(c: Collected, nodeWeights: map<string, real>)
    requires c.points != []
    ensures Combine(c.points, c.spec, nodeWeights).Aggregated?
  {
  }

  /** The weight with which a report counts, by the weights that the result names. */
  function Share(kept: seq<Report>, shares: map<string, real>): nat -> real {
    (i: nat) => if i < |kept| && kept[i].node in shares then shares[kept[i].node] else 0.0
  }

  /** Coordinate `j` of each report. */
  function Numbers(kept: seq<Report>, j: nat): nat -> real {
    (i: nat) => if i < |kept| then At(PayloadVector(Effective(kept[i].payload)), j) else 0.0
  }

  /** What a call returns, counted and weighed. A node is rejected exactly when its squared
      distance from the mean of all is above 1e-12 and above nine times that of more than
      half of the reports. The others are the sources, each with the weight reported for it,
      at least 1e-6, or 1 if none was. And the aggregate is their weighted mean. */
  lemma {:induction false} ResultExact(reports: seq<Report>, nodeWeights: map<string, real>)
    requires DistinctReports(reports)
    ensures Detect(reports, nodeWeights).Aggregated? ==>
      var ps := Encodeds(reports);
      && ps != []
      && var o := Detect(reports, nodeWeights);
      && var kept := Survivors(reports, o.result.byzantineNodes);
      && RejectsFar(ps, o.result.byzantineNodes)
      && (o.detected <==> exists r | r in reports :: r.node in o.result.byzantineNodes)
      && o.result.sourceNodes == Names(kept)
      && Weighed(kept, nodeWeights, o.result.sourceWeights)
      && |o.result.weights| == |ps[0].vector|
      && forall j: nat | j < |o.result.weights| ::
           Mul(Sum(|kept|, Share(kept, o.result.sourceWeights)), o.result.weights[j])
             == Sum(|kept|, Prod(Numbers(kept, j), Share(kept, o.result.sourceWeights)))
  {
    if !Detect(reports, nodeWeights).Aggregated? { return; }
    hide PayloadVector, Effective, PayloadSpec, WeightedMean, FromVector, Byzantine, Numbers, Share, Sum, Prod, Mul;
    var c := Collect(reports);
    CollectAtMostAll(reports);
    CollectAll(reports);
    var ps, len := c.points, |c.points[0].vector|;
    forall i, k | 0 <= i < k < |ps| ensures ps[i].node != ps[k].node {
      assert reports[i].node != reports[k].node;
    }
    var byzantine := Byzantine(ps, len);
    var kept := Survivors(reports, byzantine);
    MajoritySurvives(ps, len);
    WithoutEncoded(reports, byzantine);
    NamesEncoded(kept);
    RejectedReports(reports, len, byzantine);
    var shares := Detect(reports, nodeWeights).result.sourceWeights;
    SharesExact(kept, nodeWeights, shares);
    forall j: nat | j < len
      ensures Mul(Sum(|kept|, Share(kept, shares)), WeightedMean(Encodeds(kept), nodeWeights, len)[j])
        == Sum(|kept|, Prod(Numbers(kept, j), Share(kept, shares)))
    {
      MeanByShares(kept, nodeWeights, shares, len, j);
    }
  }

  ghost predicate RejectsFar(ps: seq<Point>, rejected: seq<string>)
    requires ps != []
  {
    var m := Means(ps, |ps[0].vector|);
    forall i | 0 <= i < |ps| ::
      var x := Dist2(ps[i].vector, m);
      ps[i].node in rejected <==> x > 0.000001 * 0.000001 && MuchNearer(ps, m, x) >= |ps| / 2 + 1
  }

  /** The sources' weights: as reported, but at least 1e-6, and 1 where none is reported. */
  ghost predicate Weighed(kept: seq<Report>, nodeWeights: map<string, real>, shares: map<string, real>) {
    && (forall n :: n in shares <==> n in Names(kept))
    && forall n | n in shares ::
         shares[n] == if n !in nodeWeights then 1.0 else if nodeWeights[n] > 0.000001 then nodeWeights[n] else 0.000001
  }

  lemma {:induction false} RejectedReports(reports: seq<Report>, len: nat, byzantine: seq<string>)
    requires DistinctReports(reports) && reports != [] && Width(Encodeds(reports), len)
    requires byzantine == Byzantine(Encodeds(reports), len)
    ensures RejectsFar(Encodeds(reports), byzantine)
    ensures byzantine != [] <==> exists r | r in reports :: r.node in byzantine
  {
    hide PayloadVector, Effective, Dist2, MuchNearer, Means, Byzantine;
    var ps := Encodeds(reports);
    assert forall i | 0 <= i < |reports| :: ps[i].node == reports[i].node;
    forall i | 0 <= i < |ps|
      ensures var m := Means(ps, len);
        var x := Dist2(ps[i].vector, m);
        ps[i].node in byzantine <==> x > 0.000001 * 0.000001 && MuchNearer(ps, m, x) >= |ps| / 2 + 1
    {
      RejectedIff(ps, len, i);
    }
    if byzantine != [] {
      assert byzantine[0] in byzantine;
      ByzantineKnown(ps, len, byzantine[0]);
      var i :| 0 <= i < |ps| && ps[i].node == byzantine[0];
      assert reports[i] in reports;
    }
  }

  lemma {:induction false} ByzantineKnown(ps: seq<Point>, len: nat, node: string)
    requires ps != [] && node in Byzantine(ps, len)
    ensures exists i | 0 <= i < |ps| :: ps[i].node == node
  {
    var m := Means(ps, len);
    var t := Threshold2(Dists2(ps, m));
    if forall i | 0 <= i < |ps| :: ps[i].node != node { FarNodesKnown(ps, m, t, node); }
  }

  lemma {:induction false} SharesExact(kept: seq<Report>, nodeWeights: map<string, real>, shares: map<string, real>)
    requires shares == map n | n in Nodes(Encodeds(kept)) ::
      if n in nodeWeights then Max(MIN_WEIGHT, nodeWeights[n]) else 1.0
    ensures Weighed(kept, nodeWeights, shares)
  {
    hide PayloadVector, Effective;
    NamesEncoded(kept);
  }

  lemma {:induction false} MeanByShares(kept: seq<Report>, nodeWeights: map<string, real>, shares: map<string, real>,
      len: nat, j: nat)
    requires kept != [] && Weighed(kept, nodeWeights, shares) && j < len
    ensures Mul(Sum(|kept|, Share(kept, shares)), WeightedMean(Encodeds(kept), nodeWeights, len)[j])
      == Sum(|kept|, Prod(Numbers(kept, j), Share(kept, shares)))
  {
    hide PayloadVector, Effective, Mul;
    var ps, n := Encodeds(kept), |kept|;
    forall i: nat | i < n ensures Weights(ps, nodeWeights)(i) == Share(kept, shares)(i) {
      assert Names(kept)[i] == kept[i].node && kept[i].node in Names(kept);
    }
    SumEq(n, Weights(ps, nodeWeights), Share(kept, shares));
    SumEq(n, Prod(Col(Coords(ps), j), Weights(ps, nodeWeights)), Prod(Numbers(kept, j), Share(kept, shares)));
    Divide(Sum(n, Prod(Col(Coords(ps), j), Weights(ps, nodeWeights))), TotalWeight(ps, nodeWeights));
  }
}
