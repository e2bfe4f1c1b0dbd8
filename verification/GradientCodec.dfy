/** The flat encoding of JSON gradient payloads: nested lists of numbers go to one
    vector plus a shape, and come back through the shape.

    Numbers are exact reals; integers and floats are one case, as `float(value)`
    makes them. A Python slice never fails: it is clamped to the list it cuts. */
module GradientCodec {

  datatype Json =
    | Num(x: real)
    | Bool(b: bool)
    | Str(s: string)
    | Null
    | List(items: seq<Json>)
    | Dict(entries: map<string, Json>)

  /** `None` for anything that is not a list, else one shape per item. */
  datatype Shape = Leaf | Node(shapes: seq<Shape>)

  type Payload = map<string, Json>
  type Spec = seq<(string, Shape)>

  // ---- one value -----------------------------------------------------------

  function Flat(v: Json): seq<real>
    decreases v, 0
  {
    match v
    case Num(x) => [x]
    case List(items) => FlatAll(items)
    case _ => []
  }

  function FlatAll(items: seq<Json>): seq<real>
    decreases items, 1
  {
    if items == [] then [] else Flat(items[0]) + FlatAll(items[1..])
  }

  function ShapeOf(v: Json): Shape
    decreases v, 0
  {
    match v
    case List(items) => Node(ShapesOf(items))
    case _ => Leaf
  }

  function ShapesOf(items: seq<Json>): (r: seq<Shape>)
    ensures |r| == |items|
    ensures forall k | 0 <= k < |items| :: r[k] == ShapeOf(items[k])
    decreases items, 1
  {
    if items == [] then [] else [ShapeOf(items[0])] + ShapesOf(items[1..])
  }

  function Size(shape: Shape): nat
    decreases shape, 0
  {
    match shape
    case Leaf => 1
    case Node(shapes) => SizeAll(shapes)
  }

  function SizeAll(shapes: seq<Shape>): nat
    decreases shapes, 1
  {
    if shapes == [] then 0 else Size(shapes[0]) + SizeAll(shapes[1..])
  }

  function Take(values: seq<real>, n: nat): seq<real> {
    if n <= |values| then values[..n] else values
  }

  function Drop(values: seq<real>, n: nat): seq<real> {
    if n <= |values| then values[n..] else []
  }

  function Unflat(values: seq<real>, shape: Shape): Json
    decreases shape, 0
  {
    match shape
    case Leaf => Num(if values != [] then values[0] else 0.0)
    case Node(shapes) => List(UnflatAll(values, shapes))
  }

  function UnflatAll(values: seq<real>, shapes: seq<Shape>): (r: seq<Json>)
    ensures |r| == |shapes|
    decreases shapes, 1
  {
    if shapes == [] then []
    else
      [Unflat(Take(values, Size(shapes[0])), shapes[0])] + UnflatAll(Drop(values, Size(shapes[0])), shapes[1..])
  }

  /** Every leaf is a number. */
  predicate Numeric(v: Json)
    decreases v
  {
    match v
    case Num(_) => true
    case List(items) => forall k | 0 <= k < |items| :: Numeric(items[k])
    case _ => false
  }

  /** How many leaves are not numbers. */
  function Strays(v: Json): nat
    decreases v, 0
  {
    match v
    case Num(_) => 0
    case List(items) => StraysAll(items)
    case _ => 1
  }

  function StraysAll(items: seq<Json>): nat
    decreases items, 1
  {
    if items == [] then 0 else Strays(items[0]) + StraysAll(items[1..])
  }

  lemma {:induction false} NoStrays(v: Json)
    ensures Strays(v) == 0 <==> Numeric(v)
    decreases v, 0
  {
    match v
    case List(items) => NoStraysAll(items);
    case _ =>
  }

  lemma {:induction false} NoStraysAll(items: seq<Json>)
    ensures StraysAll(items) == 0 <==> forall k | 0 <= k < |items| :: Numeric(items[k])
    decreases items, 1
  {
    if items != [] {
      NoStrays(items[0]);
      NoStraysAll(items[1..]);
      assert forall k | 0 < k < |items| :: items[k] == items[1..][k - 1];
    }
  }

  /** A shape reserves one slot for every leaf, the flat vector one for every number. */
  lemma {:induction false} SizeOfShape(v: Json)
    ensures Size(ShapeOf(v)) == |Flat(v)| + Strays(v)
    decreases v, 0
  {
    match v
    case List(items) => SizeOfShapes(items);
    case _ =>
  }

  lemma {:induction false} SizeOfShapes(items: seq<Json>)
    ensures SizeAll(ShapesOf(items)) == |FlatAll(items)| + StraysAll(items)
    decreases items, 1
  {
    if items != [] {
      SizeOfShape(items[0]);
      SizeOfShapes(items[1..]);
      assert ShapesOf(items)[1..] == ShapesOf(items[1..]);
    }
  }

  /** `_shape_size` is the flattened length exactly when every leaf is a number. */
  lemma {:induction false} SizeIsLengthIffNumeric(v: Json)
    ensures Size(ShapeOf(v)) == |Flat(v)| <==> Numeric(v)
  {
    SizeOfShape(v);
    NoStrays(v);
  }

  lemma {:induction false} UnflatNumeric(values: seq<real>, shape: Shape)
    ensures Numeric(Unflat(values, shape))
    ensures ShapeOf(Unflat(values, shape)) == shape
    decreases shape, 0
  {
    match shape
    case Leaf =>
    case Node(shapes) => UnflatAllNumeric(values, shapes);
  }

  lemma {:induction false} UnflatAllNumeric(values: seq<real>, shapes: seq<Shape>)
    ensures forall k | 0 <= k < |shapes| :: Numeric(UnflatAll(values, shapes)[k])
    ensures ShapesOf(UnflatAll(values, shapes)) == shapes
    decreases shapes, 1
  {
    if shapes != [] {
      UnflatNumeric(Take(values, Size(shapes[0])), shapes[0]);
      UnflatAllNumeric(Drop(values, Size(shapes[0])), shapes[1..]);
      var r := UnflatAll(values, shapes);
      assert r[1..] == UnflatAll(Drop(values, Size(shapes[0])), shapes[1..]);
      assert forall k | 0 < k < |shapes| :: r[k] == r[1..][k - 1];
    }
  }

  lemma {:induction false} UnflatOfFlat(v: Json)
    requires Numeric(v)
    ensures Unflat(Flat(v), ShapeOf(v)) == v
    decreases v, 0
  {
    match v
    case Num(_) =>
    case List(items) => UnflatAllOfFlatAll(items);
  }

  lemma {:induction false} UnflatAllOfFlatAll(items: seq<Json>)
    requires forall k | 0 <= k < |items| :: Numeric(items[k])
    ensures UnflatAll(FlatAll(items), ShapesOf(items)) == items
    decreases items, 1
  {
    if items != [] {
      SizeIsLengthIffNumeric(items[0]);
      var n := Size(ShapeOf(items[0]));
      assert Take(FlatAll(items), n) == Flat(items[0]);
      assert Drop(FlatAll(items), n) == FlatAll(items[1..]);
      assert ShapesOf(items)[1..] == ShapesOf(items[1..]);
      UnflatOfFlat(items[0]);
      UnflatAllOfFlatAll(items[1..]);
    }
  }

  /** Unflattening undoes flattening for exactly the values whose leaves are all
      numbers: any other leaf comes back as a number. */
  lemma {:induction false} RoundTripIffNumeric(v: Json)
    ensures Unflat(Flat(v), ShapeOf(v)) == v <==> Numeric(v)
  {
    UnflatNumeric(Flat(v), ShapeOf(v));
    if Numeric(v) { UnflatOfFlat(v); }
  }

  /** A boolean leaf shifts its neighbours: `[true, 1.0]` comes back as `[1.0, 0.0]`. */
  lemma StrayLeafShifts()
    ensures var v := List([Bool(true), Num(1.0)]);
            Unflat(Flat(v), ShapeOf(v)) == List([Num(1.0), Num(0.0)])
  {
    var items := [Bool(true), Num(1.0)];
    assert FlatAll(items[1..]) == [1.0] + FlatAll(items[1..][1..]) == [1.0];
    assert FlatAll(items) == [1.0];
    assert ShapesOf(items) == [Leaf, Leaf];
    assert UnflatAll([], [Leaf, Leaf][1..]) == [Num(0.0)] + UnflatAll([], [Leaf, Leaf][1..][1..]) == [Num(0.0)];
    assert Take([1.0], 1) == [1.0] && Drop([1.0], 1) == [];
    assert UnflatAll([1.0], [Leaf, Leaf]) == [Num(1.0)] + UnflatAll([], [Leaf, Leaf][1..]);
  }

  /** Order is kept: the numbers of a list are those of its first part, then those of the
      rest. A number is itself, and any other leaf holds none. */
  lemma {:induction false} FlatInOrder(a: seq<Json>, b: seq<Json>, v: Json)
    ensures Flat(List(a + b)) == Flat(List(a)) + Flat(List(b)) && Flat(List([])) == []
    ensures Flat(List([v])) == Flat(v)
    ensures v.Num? ==> Flat(v) == [v.x]
    ensures !v.Num? && !v.List? ==> Flat(v) == []
  {
    assert [v][1..] == [];
    if a == [] {
      assert a + b == b;
    } else {
      FlatInOrder(a[1..], b, v);
      assert (a + b)[1..] == a[1..] + b;
    }
  }

  // ---- `_flatten_numeric` and `_unflatten_numeric`, with their loops --------

  lemma {:induction false} FlatAllPrefix(items: seq<Json>, i: nat)
    requires i < |items|
    ensures FlatAll(items[..i + 1]) == FlatAll(items[..i]) + Flat(items[i])
    decreases i
  {
    if i == 0 {
      assert items[..1][1..] == [];
    } else {
      FlatAllPrefix(items[1..], i - 1);
      assert items[..i + 1][1..] == items[1..][..i];
      assert items[..i][1..] == items[1..][..i - 1];
    }
  }

  method FlattenNumeric(value: Json) returns (flattened: seq<real>, shape: Shape)
    ensures flattened == Flat(value) && shape == ShapeOf(value)
    decreases value
  {
    match value
    case Num(x) => return [x], Leaf;
    case List(items) =>
      flattened := [];
      var shapes := [];
      for i := 0 to |items|
        invariant flattened == FlatAll(items[..i])
        invariant shapes == ShapesOf(items)[..i]
      {
        var part, itemShape := FlattenNumeric(items[i]);
        FlatAllPrefix(items, i);
        flattened := flattened + part;
        shapes := shapes + [itemShape];
      }
      assert items[..|items|] == items;
      shape := Node(shapes);
    case _ => return [], Leaf;
  }

  lemma DropTwice(values: seq<real>, a: nat, b: nat)
    ensures Drop(Drop(values, a), b) == Drop(values, a + b) && Drop(values, 0) == values
  {
  }

  /** Where the `i`-th child finds its numbers. */
  lemma {:induction false} UnflatAllAt(values: seq<real>, shapes: seq<Shape>, i: nat)
    requires i < |shapes|
    ensures UnflatAll(values, shapes)[i]
         == Unflat(Take(Drop(values, SizeAll(shapes[..i])), Size(shapes[i])), shapes[i])
    ensures SizeAll(shapes[..i + 1]) == SizeAll(shapes[..i]) + Size(shapes[i])
    decreases i
  {
    hide Unflat, Size, Drop, Take;
    if i == 0 {
      DropTwice(values, 0, 0);
      assert shapes[..1][1..] == [];
    } else {
      var n := Size(shapes[0]);
      UnflatAllAt(Drop(values, n), shapes[1..], i - 1);
      assert shapes[..i + 1][1..] == shapes[1..][..i];
      assert shapes[..i][1..] == shapes[1..][..i - 1];
      DropTwice(values, n, SizeAll(shapes[1..][..i - 1]));
    }
  }

  method UnflattenNumeric(values: seq<real>, shape: Shape) returns (result: Json)
    ensures result == Unflat(values, shape)
    decreases shape
  {
    match shape
    case Leaf => return Num(if values != [] then values[0] else 0.0);
    case Node(shapes) =>
      var items, offset := [], 0;
      for i := 0 to |shapes|
        invariant offset == SizeAll(shapes[..i])
        invariant items == UnflatAll(values, shapes)[..i]
      {
        var size := Size(shapes[i]);
        UnflatAllAt(values, shapes, i);
        var child := UnflattenNumeric(Take(Drop(values, offset), size), shapes[i]);
        items := items + [child];
        offset := offset + size;
      }
      result := List(items);
  }

  // ---- payloads ------------------------------------------------------------

  /** Python's order on strings: by the first differing character. */
  predicate Le(a: string, b: string) {
    a == [] || (b != [] && (a[0] < b[0] || (a[0] == b[0] && Le(a[1..], b[1..]))))
  }

  /** They agree on the first `k` characters and differ there, `a` being smaller or over. */
  ghost predicate SmallerAt(a: string, b: string, k: nat) {
    k <= |a| && k <= |b| && a[..k] == b[..k] && (k == |a| || (k < |b| && a[k] < b[k]))
  }

  ghost predicate NotAfter(a: string, b: string) {
    exists k: nat :: SmallerAt(a, b, k)
  }

  lemma PrefixHead(a: string, b: string, k: nat)
    requires a != [] && b != []
    ensures SmallerAt(a, b, k) && k > 0 ==> a[0] == b[0]
  {
    if 0 < k <= |a| && k <= |b| { assert a[..k][0] == a[0] && b[..k][0] == b[0]; }
  }

  lemma {:induction false} LeIff(a: string, b: string)
    ensures Le(a, b) <==> NotAfter(a, b)
  {
    if a == [] {
      assert SmallerAt(a, b, 0);
    } else if b != [] && a[0] == b[0] {
      LeIff(a[1..], b[1..]);
      assert a == [a[0]] + a[1..] && b == [b[0]] + b[1..];
      if k: nat :| SmallerAt(a[1..], b[1..], k) {
        assert a[..k + 1] == [a[0]] + a[1..][..k] && b[..k + 1] == [b[0]] + b[1..][..k];
        assert SmallerAt(a, b, k + 1);
      }
      if k: nat :| SmallerAt(a, b, k) {
        assert k > 0;
        assert a[1..][..k - 1] == a[..k][1..] && b[1..][..k - 1] == b[..k][1..];
        assert SmallerAt(a[1..], b[1..], k - 1);
      }
    } else if b != [] {
      if a[0] < b[0] { assert SmallerAt(a, b, 0); }
      if k: nat :| SmallerAt(a, b, k) { PrefixHead(a, b, k); }
    }
  }

  lemma {:induction false} LeTotal(a: string, b: string)
    ensures Le(a, b) || Le(b, a)
    ensures Le(a, b) && Le(b, a) ==> a == b
  {
    if a != [] && b != [] {
      LeTotal(a[1..], b[1..]);
      assert a == [a[0]] + a[1..] && b == [b[0]] + b[1..];
    }
  }

  lemma {:induction false} LeTransitive(a: string, b: string, c: string)
    requires Le(a, b) && Le(b, c)
    ensures Le(a, c)
  {
    if a != [] && b != [] && c != [] && a[0] == b[0] == c[0] { LeTransitive(a[1..], b[1..], c[1..]); }
  }

  ghost predicate Least(x: string, keys: set<string>) {
    x in keys && forall k | k in keys :: Le(x, k)
  }

  lemma {:induction false} LeastName(keys: set<string>)
    requires keys != {}
    ensures exists x :: Least(x, keys)
  {
    var x :| x in keys;
    LeTotal(x, x);
    if keys == {x} {
      assert Least(x, keys);
    } else {
      LeastName(keys - {x});
      var y :| Least(y, keys - {x});
      LeTotal(x, y);
      if Le(x, y) {
        forall k | k in keys && k != x ensures Le(x, k) { LeTransitive(x, y, k); }
        assert Least(x, keys);
      } else {
        assert Least(y, keys);
      }
    }
  }

  /** `sorted(payload)`. */
  function SortedNames(keys: set<string>): (names: seq<string>)
    ensures forall k :: k in names <==> k in keys
    ensures forall i, j | 0 <= i < j < |names| :: names[i] != names[j] && Le(names[i], names[j])
  {
    if keys == {} then []
    else
      LeastName(keys);
      assert forall a, b | Le(a, b) && Le(b, a) :: a == b by {
        forall a, b | Le(a, b) && Le(b, a) ensures a == b { LeTotal(a, b); }
      }
      var least :| least in keys && forall k | k in keys :: Le(least, k);
      var rest := SortedNames(keys - {least});
      assert forall j | 0 <= j < |rest| :: rest[j] in rest;
      [least] + rest
  }

  function Vector(p: Payload, names: seq<string>): seq<real>
    requires forall k | k in names :: k in p
  {
    if names == [] then [] else Flat(p[names[0]]) + Vector(p, names[1..])
  }

  function SpecOf(p: Payload, names: seq<string>): Spec
    requires forall k | k in names :: k in p
  {
    if names == [] then []
    else if Flat(p[names[0]]) != [] then [(names[0], ShapeOf(p[names[0]]))] + SpecOf(p, names[1..])
    else SpecOf(p, names[1..])
  }

  function FromVector(vector: seq<real>, spec: Spec): Payload
    decreases spec
  {
    if spec == [] then map[]
    else
      var n := Size(spec[0].1);
      map[spec[0].0 := Unflat(Take(vector, n), spec[0].1)] + FromVector(Drop(vector, n), spec[1..])
  }

  function PayloadVector(p: Payload): seq<real> {
    Vector(p, SortedNames(p.Keys))
  }

  function PayloadSpec(p: Payload): Spec {
    SpecOf(p, SortedNames(p.Keys))
  }

  /** The entries that hold at least one number. */
  function Holding(p: Payload): Payload {
    map k | k in p && Flat(p[k]) != [] :: p[k]
  }

  lemma {:induction false} VectorPrefix(p: Payload, names: seq<string>, i: nat)
    requires i < |names| && forall k | k in names :: k in p
    ensures Vector(p, names[..i + 1]) == Vector(p, names[..i]) + Flat(p[names[i]])
    decreases i
  {
    if i == 0 {
      assert names[..1][1..] == [];
    } else {
      VectorPrefix(p, names[1..], i - 1);
      assert names[..i + 1][1..] == names[1..][..i];
      assert names[..i][1..] == names[1..][..i - 1];
    }
  }

  lemma {:induction false} SpecPrefix(p: Payload, names: seq<string>, i: nat)
    requires i < |names| && forall k | k in names :: k in p
    ensures SpecOf(p, names[..i + 1])
         == SpecOf(p, names[..i]) + (if Flat(p[names[i]]) != [] then [(names[i], ShapeOf(p[names[i]]))] else [])
    decreases i
  {
    if i == 0 {
      assert names[..1][1..] == [];
    } else {
      SpecPrefix(p, names[1..], i - 1);
      assert names[..i + 1][1..] == names[1..][..i];
      assert names[..i][1..] == names[1..][..i - 1];
    }
  }

  method PayloadToVector(p: Payload) returns (vector: seq<real>, spec: Spec)
    ensures vector == PayloadVector(p) && spec == PayloadSpec(p)
  {
    var names := SortedNames(p.Keys);
    vector, spec := [], [];
    for i := 0 to |names|
      invariant vector == Vector(p, names[..i])
      invariant spec == SpecOf(p, names[..i])
    {
      var flattened, shape := FlattenNumeric(p[names[i]]);
      VectorPrefix(p, names, i);
      SpecPrefix(p, names, i);
      if flattened != [] {
        vector := vector + flattened;
        spec := spec + [(names[i], shape)];
      }
    }
    assert names[..|names|] == names;
  }

  lemma {:induction false} RegroupMaps(p: Payload, name: string, value: Json, rest: Payload)
    ensures p + (map[name := value] + rest) == p[name := value] + rest
  {
  }

  lemma {:induction false} UnfoldBack(vector: seq<real>, spec: Spec, i: nat, offset: nat)
    requires i < |spec|
    ensures FromVector(Drop(vector, offset), spec[i..])
         == map[spec[i].0 := Unflat(Take(Drop(vector, offset), Size(spec[i].1)), spec[i].1)]
            + FromVector(Drop(vector, offset + Size(spec[i].1)), spec[i + 1..])
  {
    var size := Size(spec[i].1);
    assert Drop(Drop(vector, offset), size) == Drop(vector, offset + size);
    assert spec[i..][1..] == spec[i + 1..];
  }

  method VectorToPayload(vector: seq<real>, spec: Spec) returns (p: Payload)
    ensures p == FromVector(vector, spec)
  {
    var offset := 0;
    p := map[];
    for i := 0 to |spec|
      invariant offset >= 0
      invariant p + FromVector(Drop(vector, offset), spec[i..]) == FromVector(vector, spec)
    {
      var size := Size(spec[i].1);
      UnfoldBack(vector, spec, i, offset);
      var value := UnflattenNumeric(Take(Drop(vector, offset), size), spec[i].1);
      RegroupMaps(p, spec[i].0, value, FromVector(Drop(vector, offset + size), spec[i + 1..]));
      p := p[spec[i].0 := value];
      offset := offset + size;
    }
  }

  /** The entries of `p` under `names` that hold at least one number. */
  ghost function HoldingNames(p: Payload, names: seq<string>): Payload
    requires forall k | k in names :: k in p
  {
    map k | k in names && Flat(p[k]) != [] :: p[k]
  }

  lemma {:induction false} HoldingStep(p: Payload, names: seq<string>)
    requires names != [] && forall k | k in names :: k in p
    ensures HoldingNames(p, names)
         == (if Flat(p[names[0]]) != [] then map[names[0] := p[names[0]]] else map[]) + HoldingNames(p, names[1..])
  {
    assert forall k :: k in names <==> k == names[0] || k in names[1..];
  }

  lemma {:induction false} NamesRoundTrip(p: Payload, names: seq<string>)
    requires forall k | k in names :: k in p
    requires forall k | k in names && Flat(p[k]) != [] :: Numeric(p[k])
    ensures FromVector(Vector(p, names), SpecOf(p, names)) == HoldingNames(p, names)
  {
    if names != [] {
      var v, rest := p[names[0]], names[1..];
      NamesRoundTrip(p, rest);
      HoldingStep(p, names);
      if Flat(v) != [] {
        SizeIsLengthIffNumeric(v);
        UnflatOfFlat(v);
        UnfoldBack(Vector(p, names), SpecOf(p, names), 0, 0);
        assert Drop(Vector(p, names), 0) == Vector(p, names);
        assert SpecOf(p, names)[0..] == SpecOf(p, names);
        assert SpecOf(p, names)[1..] == SpecOf(p, rest);
        assert Take(Vector(p, names), Size(ShapeOf(v))) == Flat(v);
        assert Drop(Vector(p, names), Size(ShapeOf(v))) == Vector(p, rest);
      } else {
        assert Flat(v) + Vector(p, rest) == Vector(p, rest);
      }
    }
  }

  lemma {:induction false} FromVectorNumeric(vector: seq<real>, spec: Spec)
    ensures forall k | k in FromVector(vector, spec) :: Numeric(FromVector(vector, spec)[k])
    decreases spec
  {
    if spec != [] {
      var n := Size(spec[0].1);
      UnflatNumeric(Take(vector, n), spec[0].1);
      FromVectorNumeric(Drop(vector, n), spec[1..]);
    }
  }

  lemma {:induction false} FromVectorKeys(vector: seq<real>, p: Payload, names: seq<string>)
    requires forall k | k in names :: k in p
    ensures FromVector(vector, SpecOf(p, names)).Keys == HoldingNames(p, names).Keys
    decreases names
  {
    if names != [] {
      var name, rest := names[0], names[1..];
      assert forall k :: k in names <==> k == name || k in rest;
      if Flat(p[name]) != [] {
        assert SpecOf(p, names)[1..] == SpecOf(p, rest);
        FromVectorKeys(Drop(vector, Size(ShapeOf(p[name]))), p, rest);
      } else {
        FromVectorKeys(vector, p, rest);
      }
    }
  }

  /** A payload survives encoding and decoding, losing only the entries that hold no
      number, exactly when the entries that do hold numbers hold nothing else. */
  lemma {:induction false} PayloadRoundTrip(p: Payload)
    ensures FromVector(PayloadVector(p), PayloadSpec(p)) == Holding(p)
       <==> forall k | k in Holding(p) :: Numeric(p[k])
    ensures FromVector(PayloadVector(p), PayloadSpec(p)).Keys == Holding(p).Keys
  {
    var names := SortedNames(p.Keys);
    assert HoldingNames(p, names) == Holding(p);
    FromVectorKeys(PayloadVector(p), p, names);
    if forall k | k in Holding(p) :: Numeric(p[k]) {
      NamesRoundTrip(p, names);
    } else {
      FromVectorNumeric(PayloadVector(p), PayloadSpec(p));
    }
  }

  /** A payload's vector and spec list its entries by ascending name: the numbers of the
      smaller names come first. */
  lemma {:induction false} NamesAscend(p: Payload, name: string) returns (i: nat)
    requires name in p
    ensures var names := SortedNames(p.Keys);
      && i < |names| && names[i] == name
      && (forall j | 0 <= j < i :: names[j] != name && NotAfter(names[j], name))
      && (forall j | i < j < |names| :: names[j] != name && NotAfter(name, names[j]))
      && PayloadVector(p) == Vector(p, names[..i]) + Flat(p[name]) + Vector(p, names[i + 1..])
  {
    hide Le, NotAfter;
    var names := SortedNames(p.Keys);
    assert name in names;
    i :| 0 <= i < |names| && names[i] == name;
    forall j | 0 <= j < |names|
      ensures Le(names[j], name) <==> NotAfter(names[j], name)
      ensures Le(name, names[j]) <==> NotAfter(name, names[j])
    {
      LeIff(names[j], name);
      LeIff(name, names[j]);
    }
    VectorSplit(p, names, i);
  }

  lemma {:induction false} VectorSplit(p: Payload, names: seq<string>, i: nat)
    requires i < |names| && forall k | k in names :: k in p
    ensures Vector(p, names) == Vector(p, names[..i]) + Flat(p[names[i]]) + Vector(p, names[i + 1..])
    decreases i
  {
    hide Flat;
    if i > 0 {
      VectorSplit(p, names[1..], i - 1);
      assert names[1..][..i - 1] == names[..i][1..] && names[1..][i..] == names[i + 1..];
    }
  }
}
