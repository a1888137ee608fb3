/** Unstructured Kubernetes objects as trees, and the comparison that decides whether a write is
    needed (nestedSpecsEqual and valueEqual in
    operator/internal/controller/clustertls_singleton.go). */
module SpecTree {
  /** What JSON decodes to: nil, booleans, int64 and strings at the leaves. */
  datatype Scalar = Null | Bool(b: bool) | Int(i: int) | Str(s: string)

  datatype Value =
    | Leaf(x: Scalar)
    | Seq(items: seq<Value>)
    | Map(fields: map<string, Value>)

  type Fields = map<string, Value>

  /** fmt.Sprintf("%v", ...) of any value. */
  type Render = Value -> string

  /** The loop checks equal size and that every key of `a` is in `b` with an equal value. */
  predicate NestedSpecsEqual(render: Render, a: Fields, b: Fields)
    decreases Map(a), 0
  {
    && |a| == |b|
    && forall k | k in a :: k in b && ValueEqual(render, a[k], b[k])
  }

  predicate ValueEqual(render: Render, a: Value, b: Value)
    decreases a, 1
  {
    match a
    case Map(av) => b.Map? && NestedSpecsEqual(render, av, b.fields)
    case Seq(av) =>
      b.Seq? && |av| == |b.items| && forall i | 0 <= i < |av| :: ValueEqual(render, av[i], b.items[i])
    case Leaf(_) => render(a) == render(b)
  }

  /** Leaves print differently from each other and from every list and map. */
  ghost predicate Faithful(render: Render) {
    forall x, v :: render(Leaf(x)) == render(v) ==> v == Leaf(x)
  }

  lemma {:induction false} ValueEqualReflexive(render: Render, a: Value)
    ensures ValueEqual(render, a, a)
    decreases a, 1
  {
    match a
    case Map(av) => NestedSpecsEqualReflexive(render, av);
    case Seq(av) => forall i | 0 <= i < |av| { ValueEqualReflexive(render, av[i]); }
    case Leaf(_) =>
  }

  lemma {:induction false} NestedSpecsEqualReflexive(render: Render, a: Fields)
    ensures NestedSpecsEqual(render, a, a)
    decreases Map(a), 0
  {
    forall k | k in a { ValueEqualReflexive(render, a[k]); }
  }

  lemma SameSizeInclusion<T>(a: set<T>, b: set<T>)
    requires a <= b && |a| == |b|
    ensures a == b
  {
    assert b == a + (b - a);
    assert |b| == |a| + |b - a|;
  }

  /** Nothing else prints like a leaf of the value. */
  ghost predicate PrintsApart(render: Render, a: Value) {
    match a
    case Leaf(_) => forall v :: render(v) == render(a) ==> v == a
    case Seq(items) => forall i | 0 <= i < |items| :: PrintsApart(render, items[i])
    case Map(fields) => forall k | k in fields :: PrintsApart(render, fields[k])
  }

  lemma {:induction false} FaithfulPrintsApart(render: Render, a: Value)
    requires Faithful(render)
    ensures PrintsApart(render, a)
  {
    match a
    case Leaf(_) =>
    case Seq(items) => forall i | 0 <= i < |items| { FaithfulPrintsApart(render, items[i]); }
    case Map(fields) => forall k | k in fields { FaithfulPrintsApart(render, fields[k]); }
  }

  lemma {:induction false} ValueEqualSound(render: Render, a: Value, b: Value)
    requires PrintsApart(render, a) && ValueEqual(render, a, b)
    ensures a == b
    decreases a, 1
  {
    match a
    case Map(av) => NestedSpecsEqualSound(render, av, b.fields);
    case Seq(av) => forall i | 0 <= i < |av| { ValueEqualSound(render, av[i], b.items[i]); }
    case Leaf(_) =>
  }

  lemma {:induction false} NestedSpecsEqualSound(render: Render, a: Fields, b: Fields)
    requires PrintsApart(render, Map(a)) && NestedSpecsEqual(render, a, b)
    ensures a == b
    decreases Map(a), 0
  {
    assert |a.Keys| == |a| && |b.Keys| == |b|;
    SameSizeInclusion(a.Keys, b.Keys);
    forall k | k in a { ValueEqualSound(render, a[k], b[k]); }
  }

  ghost predicate ComparesTrees(render: Render) {
    forall a, b :: ValueEqual(render, a, b) <==> a == b
  }

  /** The comparison is equality of trees exactly when leaves render faithfully. */
  lemma ComparisonExact(render: Render)
    ensures Faithful(render) <==> ComparesTrees(render)
  {
    if Faithful(render) {
      forall a, b ensures ValueEqual(render, a, b) <==> a == b {
        ValueEqualReflexive(render, a);
        FaithfulPrintsApart(render, a);
        if ValueEqual(render, a, b) { ValueEqualSound(render, a, b); }
      }
    }
    if ComparesTrees(render) {
      forall x, v | render(Leaf(x)) == render(v) ensures v == Leaf(x) {
        assert ValueEqual(render, Leaf(x), v);
      }
    }
  }

  // ---------- reading parts of a tree, as Go's "value, _ :=" forms do ----------

  function Get(m: Fields, k: string): Value {
    if k in m then m[k] else Leaf(Null)
  }

  function AsMap(v: Value): Fields {
    if v.Map? then v.fields else map[]
  }

  function AsSeq(v: Value): seq<Value> {
    if v.Seq? then v.items else []
  }

  function AsStr(v: Value): string {
    if v.Leaf? && v.x.Str? then v.x.s else ""
  }

  function Text(s: string): Value {
    Leaf(Str(s))
  }
}
