/** The shared HTTPS listener on a Gateway that also carries other people's listeners
    (operator/internal/controller/reconcilers/clustertls.go). */
module Listeners {
  import opened SpecTree

  datatype Wanted = Wanted(listener: string, hostname: string, secret: string, secretNamespace: string)

  function CertificateRef(w: Wanted): Fields {
    map["kind" := Text("Secret"), "name" := Text(w.secret), "namespace" := Text(w.secretNamespace)]
  }

  function BuildHTTPSListener(w: Wanted): Fields {
    map["name" := Text(w.listener),
        "protocol" := Text("HTTPS"),
        "port" := Leaf(Int(443)),
        "hostname" := Text(w.hostname),
        "tls" := Map(map["mode" := Text("Terminate"), "certificateRefs" := Seq([Map(CertificateRef(w))])]),
        "allowedRoutes" := Map(map["namespaces" := Map(map["from" := Text("All")])])]
  }

  predicate SameOn(render: Render, a: Fields, b: Fields, keys: seq<string>) {
    forall k | k in keys :: render(Get(a, k)) == render(Get(b, k))
  }

  predicate SameRefs(render: Render, a: seq<Value>, b: seq<Value>) {
    && |a| == |b|
    && forall i | 0 <= i < |a| :: SameOn(render, AsMap(a[i]), AsMap(b[i]), ["kind", "name", "namespace"])
  }

  function RoutesFrom(l: Fields): Value {
    Get(AsMap(Get(AsMap(Get(l, "allowedRoutes")), "namespaces")), "from")
  }

  function Refs(l: Fields): seq<Value> {
    AsSeq(Get(AsMap(Get(l, "tls")), "certificateRefs"))
  }

  predicate ListenersEqual(render: Render, a: Fields, b: Fields) {
    && SameOn(render, a, b, ["name", "protocol", "port", "hostname"])
    && render(Get(AsMap(Get(a, "tls")), "mode")) == render(Get(AsMap(Get(b, "tls")), "mode"))
    && SameRefs(render, Refs(a), Refs(b))
    && render(RoutesFrom(a)) == render(RoutesFrom(b))
  }

  // ---------- reading and writing spec.listeners ----------

  datatype Found = Listing(items: seq<Value>) | Absent | Malformed

  /** unstructured.NestedSlice(obj, "spec", "listeners"). */
  function ReadListeners(obj: Fields): Found {
    if "spec" !in obj || obj["spec"] == Leaf(Null) then Absent
    else if !obj["spec"].Map? then Malformed
    else if "listeners" !in obj["spec"].fields then Absent
    else if obj["spec"].fields["listeners"].Seq? then Listing(obj["spec"].fields["listeners"].items)
    else Malformed
  }

  /** unstructured.SetNestedSlice(obj, items, "spec", "listeners"), where it succeeds. */
  predicate CanWrite(obj: Fields) {
    "spec" in obj ==> obj["spec"].Map?
  }

  function WriteListeners(obj: Fields, items: seq<Value>): Fields
    requires CanWrite(obj)
  {
    obj["spec" := Map(AsMap(Get(obj, "spec"))["listeners" := Seq(items)])]
  }

  predicate Named(v: Value, name: string) {
    v.Map? && AsStr(Get(v.fields, "name")) == name
  }

  /** The position of the first listener with the name; the length if there is none. */
  function Position(items: seq<Value>, name: string): (i: nat)
    ensures i <= |items|
    ensures i < |items| ==> Named(items[i], name)
    ensures forall j :: 0 <= j < i ==> !Named(items[j], name)
  {
    if items == [] then 0
    else if Named(items[0], name) then 0
    else 1 + Position(items[1..], name)
  }

  // ---------- merging ----------

  datatype MergeResult = Unchanged | Changed(root: Fields) | Rejected

  function Placed(items: seq<Value>, i: nat, v: Value): seq<Value>
    requires i <= |items|
  {
    if i < |items| then items[i := v] else items + [v]
  }

  function Current(obj: Fields): seq<Value> {
    var found := ReadListeners(obj);
    if found.Listing? then found.items else []
  }

  function Merged(render: Render, obj: Fields, w: Wanted): MergeResult {
    if ReadListeners(obj).Malformed? then Rejected
    else
      var items := Current(obj);
      var i := Position(items, w.listener);
      if i < |items| && ListenersEqual(render, items[i].fields, BuildHTTPSListener(w)) then Unchanged
      else if CanWrite(obj) then Changed(WriteListeners(obj, Placed(items, i, Map(BuildHTTPSListener(w)))))
      else Rejected
  }

  /** The Gateway object, edited in place. */
  class Gateway {
    var root: Fields

    constructor (root: Fields)
      ensures this.root == root
    {
      this.root := root;
    }

    /** `changed` asks for a write; with an error or without a change the object is untouched. */
    method MergeHTTPSListener(render: Render, w: Wanted) returns (changed: bool, failed: bool)
      modifies this
      ensures failed <==> Merged(render, old(root), w).Rejected?
      ensures changed <==> Merged(render, old(root), w).Changed?
      ensures root == if changed then Merged(render, old(root), w).root else old(root)
    {
      var desired := BuildHTTPSListener(w);
      var found := ReadListeners(root);
      if found.Malformed? { return false, true; }
      var listeners := if found.Listing? then found.items else [];
      ghost var target := Position(listeners, w.listener);
      for i := 0 to |listeners|
        invariant i <= target
      {
        if !listeners[i].Map? { continue; }
        if AsStr(Get(listeners[i].fields, "name")) != w.listener { continue; }
        if ListenersEqual(render, listeners[i].fields, desired) { return false, false; }
        listeners := listeners[i := Map(desired)];
        if !CanWrite(root) { return false, true; }
        root := WriteListeners(root, listeners);
        return true, false;
      }
      listeners := listeners + [Map(desired)];
      if !CanWrite(root) { return false, true; }
      root := WriteListeners(root, listeners);
      return true, false;
    }
  }

  // ---------- what a merge does to the others ----------

  /** At most one entry is replaced, or one is appended; every other entry keeps its value and its
      place, and so does everything else in the object. */
  lemma MergeTouchesOne(render: Render, obj: Fields, w: Wanted)
    requires Merged(render, obj, w).Changed?
    ensures var obj' := Merged(render, obj, w).root;
      var before, after := Current(obj), Current(obj');
      && |before| <= |after| <= |before| + 1
      && (exists i: nat :: i < |after| && after[i] == Map(BuildHTTPSListener(w))
            && (i < |before| ==> |after| == |before| && Named(before[i], w.listener))
            && forall j :: 0 <= j < |before| && j != i ==> after[j] == before[j])
      && obj' - {"spec"} == obj - {"spec"}
      && AsMap(Get(obj', "spec")) - {"listeners"} == AsMap(Get(obj, "spec")) - {"listeners"}
  {
    var i := Position(Current(obj), w.listener);
    var after := Current(Merged(render, obj, w).root);
    assert after == Placed(Current(obj), i, Map(BuildHTTPSListener(w)));
    assert after[i] == Map(BuildHTTPSListener(w));
  }

  ghost predicate Satisfied(render: Render, obj: Fields, w: Wanted) {
    Merged(render, obj, w) == Unchanged
  }

  lemma PositionIs(items: seq<Value>, name: string, i: nat)
    requires i < |items| && Named(items[i], name)
    requires forall j :: 0 <= j < i ==> !Named(items[j], name)
    ensures Position(items, name) == i
  {
    var p := Position(items, name);
    assert !(p < i) && !(i < p);
  }

  /** A listener as the operator wrote it compares equal whatever fields a server adds to it. */
  predicate Extends(v': Value, v: Value) {
    match v
    case Leaf(_) => v' == v
    case Seq(items) => v'.Seq? && |v'.items| == |items| && forall i | 0 <= i < |items| :: Extends(v'.items[i], items[i])
    case Map(fields) => v'.Map? && forall k | k in fields :: k in v'.fields && Extends(v'.fields[k], fields[k])
  }

  lemma ExtendedField(l: Fields, d: Fields, k: string)
    requires Extends(Map(l), Map(d)) && k in d
    ensures k in l && Extends(l[k], d[k])
    ensures d[k].Leaf? ==> Get(l, k) == d[k]
  {}

  lemma ExtendedRefs(l: Fields, w: Wanted)
    requires Extends(Map(l), BuildHTTPSListener(w)["tls"])
    ensures Get(l, "mode") == Text("Terminate")
    ensures AsSeq(Get(l, "certificateRefs")) != []
    ensures |AsSeq(Get(l, "certificateRefs"))| == 1
    ensures forall k :: k in ["kind", "name", "namespace"] ==>
      Get(AsMap(AsSeq(Get(l, "certificateRefs"))[0]), k) == Get(CertificateRef(w), k)
  {
    var d := map["mode" := Text("Terminate"), "certificateRefs" := Seq([Map(CertificateRef(w))])];
    ExtendedField(l, d, "mode");
    ExtendedField(l, d, "certificateRefs");
    var r := l["certificateRefs"].items[0];
    assert Extends(r, Map(CertificateRef(w)));
    forall k | k in ["kind", "name", "namespace"] ensures Get(AsMap(r), k) == Get(CertificateRef(w), k) {
      ExtendedField(r.fields, CertificateRef(w), k);
    }
  }

  lemma ExtendedRoutes(l: Fields)
    requires Extends(Map(l), Map(map["namespaces" := Map(map["from" := Text("All")])]))
    ensures Get(AsMap(Get(l, "namespaces")), "from") == Text("All")
  {
    ExtendedField(l, map["namespaces" := Map(map["from" := Text("All")])], "namespaces");
    ExtendedField(l["namespaces"].fields, map["from" := Text("All")], "from");
  }

  lemma ExtendedScalars(render: Render, l: Fields, w: Wanted)
    requires Extends(Map(l), Map(BuildHTTPSListener(w)))
    ensures SameOn(render, l, BuildHTTPSListener(w), ["name", "protocol", "port", "hostname"])
    ensures AsStr(Get(l, "name")) == w.listener
  {
    var d := BuildHTTPSListener(w);
    forall k | k in ["name", "protocol", "port", "hostname"] ensures Get(l, k) == Get(d, k) {
      ExtendedField(l, d, k);
    }
    assert "name" in ["name", "protocol", "port", "hostname"];
  }

  lemma ExtendedEqual(render: Render, l: Fields, w: Wanted)
    requires Extends(Map(l), Map(BuildHTTPSListener(w)))
    ensures ListenersEqual(render, l, BuildHTTPSListener(w))
    ensures AsStr(Get(l, "name")) == w.listener
  {
    var d := BuildHTTPSListener(w);
    ExtendedScalars(render, l, w);
    ExtendedField(l, d, "tls");
    ExtendedField(l, d, "allowedRoutes");
    hide Extends, SameOn;
    ExtendedRefs(l["tls"].fields, w);
    ExtendedRoutes(l["allowedRoutes"].fields);
    assert Refs(d) == [Map(CertificateRef(w))];
    assert SameRefs(render, Refs(l), Refs(d)) by {
      SameField(render, AsMap(Refs(l)[0]), CertificateRef(w), ["kind", "name", "namespace"]);
    }
  }

  lemma SameField(render: Render, a: Fields, b: Fields, keys: seq<string>)
    requires forall k :: k in keys ==> Get(a, k) == Get(b, k)
    ensures SameOn(render, a, b, keys)
  {}

  /** What the API server may hand back for an object it was given: listeners with extra fields,
      but none that it names anew. */
  ghost predicate Decorates(obj': Fields, obj: Fields) {
    && ReadListeners(obj').Listing? && |Current(obj')| == |Current(obj)|
    && forall i :: 0 <= i < |Current(obj)| ==>
         && Extends(Current(obj')[i], Current(obj)[i])
         && forall n :: Named(Current(obj')[i], n) <==> Named(Current(obj)[i], n)
  }

  /** A repeat is a no-op, even when the server has added fields the comparison does not look at. */
  lemma MergeAgainIsNoOp(render: Render, obj: Fields, w: Wanted, stored: Fields)
    requires Merged(render, obj, w).Changed? && Decorates(stored, Merged(render, obj, w).root)
    ensures Satisfied(render, stored, w)
  {
    var items := Current(Merged(render, obj, w).root);
    var i := Position(Current(obj), w.listener);
    assert items == Placed(Current(obj), i, Map(BuildHTTPSListener(w)));
    assert Extends(Current(stored)[i], items[i]);
    ExtendedEqual(render, Current(stored)[i].fields, w);
    forall j | 0 <= j < i ensures !Named(Current(stored)[j], w.listener) {
      assert items[j] == Current(obj)[j];
    }
    PositionIs(Current(stored), w.listener, i);
  }

  lemma {:induction false} ExtendsReflexive(v: Value)
    ensures Extends(v, v)
  {
    match v
    case Leaf(_) =>
    case Seq(items) => forall i | 0 <= i < |items| { ExtendsReflexive(items[i]); }
    case Map(fields) => forall k | k in fields { ExtendsReflexive(fields[k]); }
  }

  lemma MergeSatisfies(render: Render, obj: Fields, w: Wanted)
    requires Merged(render, obj, w).Changed?
    ensures Satisfied(render, Merged(render, obj, w).root, w)
  {
    var obj' := Merged(render, obj, w).root;
    forall i | 0 <= i < |Current(obj')| { ExtendsReflexive(Current(obj')[i]); }
    MergeAgainIsNoOp(render, obj, w, obj');
  }

  /** The external and the internal listener on one Gateway do not disturb each other. */
  lemma MergesIndependent(render: Render, obj: Fields, mine: Wanted, other: Wanted)
    requires mine.listener != other.listener
    requires Satisfied(render, obj, mine) && Merged(render, obj, other).Changed?
    ensures Satisfied(render, Merged(render, obj, other).root, mine)
  {
    var before := Current(obj);
    var p, q := Position(before, mine.listener), Position(before, other.listener);
    var after := Current(Merged(render, obj, other).root);
    assert after == Placed(before, q, Map(BuildHTTPSListener(other)));
    assert p != q;
    assert after[p] == before[p];
    forall j | 0 <= j < p ensures !Named(after[j], mine.listener) {
      if j != q { assert after[j] == before[j]; }
    }
    PositionIs(after, mine.listener, p);
  }

  // ---------- what a server may add ----------

  /** Nothing but a leaf, and not nil, prints like a leaf of the wanted listener. */
  ghost predicate LeavesApart(render: Render, w: Wanted) {
    forall x, v | x in WantedLeaves(w) && render(v) == render(Leaf(x)) :: v.Leaf? && v != Leaf(Null)
  }

  function WantedLeaves(w: Wanted): set<Scalar> {
    {Int(443), Str("HTTPS"), Str("Terminate"), Str("Secret"), Str("All"),
     Str(w.listener), Str(w.hostname), Str(w.secret), Str(w.secretNamespace)}
  }

  lemma KeptLeaf(a: Fields, b: Fields, k: string)
    requires Extends(Map(a), Map(b)) && Get(b, k).Leaf? && Get(b, k) != Leaf(Null)
    ensures Get(a, k) == Get(b, k)
  {}

  lemma KeptPart(a: Fields, b: Fields, k: string)
    requires Extends(Map(a), Map(b))
    ensures Extends(Map(AsMap(Get(a, k))), Map(AsMap(Get(b, k))))
    ensures |AsSeq(Get(b, k))| > 0 ==>
      && |AsSeq(Get(a, k))| == |AsSeq(Get(b, k))|
      && forall i | 0 <= i < |AsSeq(Get(b, k))| :: Extends(AsSeq(Get(a, k))[i], AsSeq(Get(b, k))[i])
  {}

  lemma KeptOn(render: Render, a: Fields, b: Fields, d: Fields, keys: seq<string>, w: Wanted)
    requires Extends(Map(a), Map(b)) && SameOn(render, b, d, keys) && LeavesApart(render, w)
    requires forall k :: k in keys ==> Get(d, k).Leaf? && Get(d, k).x in WantedLeaves(w)
    ensures SameOn(render, a, d, keys)
  {
    hide WantedLeaves, Extends;
    forall k | k in keys ensures render(Get(a, k)) == render(Get(d, k)) {
      KeptLeaf(a, b, k);
    }
  }

  lemma KeptTls(render: Render, a: Fields, b: Fields, d: Fields, w: Wanted)
    requires Extends(Map(a), Map(b)) && LeavesApart(render, w)
    requires Get(d, "mode") == Text("Terminate") && render(Get(b, "mode")) == render(Get(d, "mode"))
    requires AsSeq(Get(d, "certificateRefs")) == [Map(CertificateRef(w))]
    requires SameRefs(render, AsSeq(Get(b, "certificateRefs")), AsSeq(Get(d, "certificateRefs")))
    ensures render(Get(a, "mode")) == render(Get(d, "mode"))
    ensures SameRefs(render, AsSeq(Get(a, "certificateRefs")), AsSeq(Get(d, "certificateRefs")))
  {
    assert Str("Terminate") in WantedLeaves(w);
    KeptLeaf(a, b, "mode");
    KeptPart(a, b, "certificateRefs");
    var ref', ref := AsSeq(Get(a, "certificateRefs"))[0], AsSeq(Get(b, "certificateRefs"))[0];
    assert Extends(ref', ref);
    assert SameOn(render, AsMap(ref), CertificateRef(w), ["kind", "name", "namespace"]);
    assert Str("Secret") in WantedLeaves(w) && Str(w.secret) in WantedLeaves(w)
        && Str(w.secretNamespace) in WantedLeaves(w);
    hide WantedLeaves, SameOn;
    assert Extends(Map(AsMap(ref')), Map(AsMap(ref)));
    KeptOn(render, AsMap(ref'), AsMap(ref), CertificateRef(w), ["kind", "name", "namespace"], w);
  }

  lemma KeptRoutes(render: Render, a: Fields, b: Fields, w: Wanted)
    requires Extends(Map(a), Map(b)) && LeavesApart(render, w) && render(RoutesFrom(b)) == render(Text("All"))
    ensures render(RoutesFrom(a)) == render(Text("All"))
  {
    assert Str("All") in WantedLeaves(w);
    KeptPart(a, b, "allowedRoutes");
    KeptPart(AsMap(Get(a, "allowedRoutes")), AsMap(Get(b, "allowedRoutes")), "namespaces");
    KeptLeaf(AsMap(Get(AsMap(Get(a, "allowedRoutes")), "namespaces")),
             AsMap(Get(AsMap(Get(b, "allowedRoutes")), "namespaces")), "from");
  }

  lemma WantedScalars(w: Wanted)
    ensures forall k :: k in ["name", "protocol", "port", "hostname"] ==>
      Get(BuildHTTPSListener(w), k).Leaf? && Get(BuildHTTPSListener(w), k).x in WantedLeaves(w)
  {}

  lemma DecoratedStaysEqual(render: Render, a: Fields, b: Fields, w: Wanted)
    requires Extends(Map(a), Map(b)) && LeavesApart(render, w) && ListenersEqual(render, b, BuildHTTPSListener(w))
    ensures ListenersEqual(render, a, BuildHTTPSListener(w))
  {
    var d := BuildHTTPSListener(w);
    WantedListener(w);
    KeptPart(a, b, "tls");
    WantedScalars(w);
    hide Extends, BuildHTTPSListener, WantedLeaves, SameOn, SameRefs, LeavesApart;
    KeptOn(render, a, b, d, ["name", "protocol", "port", "hostname"], w);
    KeptTls(render, AsMap(Get(a, "tls")), AsMap(Get(b, "tls")), AsMap(Get(d, "tls")), w);
    KeptRoutes(render, a, b, w);
  }

  /** What the server adds to a Gateway does not unsettle a listener that is in place, whoever wrote it. */
  lemma DecoratedStaysSatisfied(render: Render, obj: Fields, w: Wanted, stored: Fields)
    requires Satisfied(render, obj, w) && Decorates(stored, obj) && LeavesApart(render, w)
    ensures Satisfied(render, stored, w)
  {
    var i := Position(Current(obj), w.listener);
    assert Extends(Current(stored)[i], Current(obj)[i]);
    DecoratedStaysEqual(render, Current(stored)[i].fields, Current(obj)[i].fields, w);
    forall j | 0 <= j < i ensures !Named(Current(stored)[j], w.listener) {
      assert !Named(Current(obj)[j], w.listener);
    }
    PositionIs(Current(stored), w.listener, i);
  }

  // ---------- what a satisfied listener says ----------

  /** Only the text `s` prints as `s`. */
  ghost predicate PrintsUniquely(render: Render, s: string) {
    forall v :: render(v) == render(Text(s)) ==> v == Text(s)
  }

  /** The texts of a wanted listener print uniquely. */
  ghost predicate Distinctive(render: Render, w: Wanted) {
    forall s | s in {"HTTPS", "Terminate", "Secret", "All", w.hostname, w.secret, w.secretNamespace} ::
      PrintsUniquely(render, s)
  }

  /** Terminates TLS on the wanted host, and a port that prints as 443, with the wanted Secret of the
      wanted namespace, for routes of all namespaces. */
  ghost predicate ServesAs(render: Render, l: Fields, w: Wanted) {
    && Get(l, "hostname") == Text(w.hostname) && Get(l, "protocol") == Text("HTTPS")
    && render(Get(l, "port")) == render(Leaf(Int(443)))
    && Get(AsMap(Get(l, "tls")), "mode") == Text("Terminate")
    && |Refs(l)| == 1 && Get(AsMap(Refs(l)[0]), "kind") == Text("Secret")
    && Get(AsMap(Refs(l)[0]), "name") == Text(w.secret)
    && Get(AsMap(Refs(l)[0]), "namespace") == Text(w.secretNamespace)
    && RoutesFrom(l) == Text("All")
  }

  /** The listener in place is what was wanted, in everything the gateway acts on. */
  lemma SatisfiedServes(render: Render, obj: Fields, w: Wanted)
    requires Satisfied(render, obj, w) && Distinctive(render, w)
    ensures var i := Position(Current(obj), w.listener);
      i < |Current(obj)| && ServesAs(render, Current(obj)[i].fields, w)
  {
    var l := Current(obj)[Position(Current(obj), w.listener)].fields;
    assert ListenersEqual(render, l, BuildHTTPSListener(w));
    hide Merged, Position;
    EqualServes(render, l, w);
  }

  lemma WantedListener(w: Wanted)
    ensures var d := BuildHTTPSListener(w);
      && Get(d, "hostname") == Text(w.hostname) && Get(d, "protocol") == Text("HTTPS")
           && Get(d, "port") == Leaf(Int(443))
      && Get(AsMap(Get(d, "tls")), "mode") == Text("Terminate")
      && Get(d, "name") == Text(w.listener)
      && Refs(d) == [Map(CertificateRef(w))] && RoutesFrom(d) == Text("All")
  {}

  lemma SameAt(render: Render, a: Fields, b: Fields, keys: seq<string>, k: string)
    requires SameOn(render, a, b, keys) && k in keys
    ensures render(Get(a, k)) == render(Get(b, k))
  {}

  lemma EqualServes(render: Render, l: Fields, w: Wanted)
    requires ListenersEqual(render, l, BuildHTTPSListener(w)) && Distinctive(render, w)
    ensures ServesAs(render, l, w)
  {
    var d := BuildHTTPSListener(w);
    WantedListener(w);
    var keys, refKeys := ["name", "protocol", "port", "hostname"], ["kind", "name", "namespace"];
    hide BuildHTTPSListener, SameOn;
    SameAt(render, l, d, keys, "protocol");
    SameAt(render, l, d, keys, "port");
    SameAt(render, l, d, keys, "hostname");
    var ref := AsMap(Refs(l)[0]);
    assert SameOn(render, ref, AsMap(Refs(d)[0]), refKeys);
    SameAt(render, ref, CertificateRef(w), refKeys, "kind");
    SameAt(render, ref, CertificateRef(w), refKeys, "name");
    SameAt(render, ref, CertificateRef(w), refKeys, "namespace");
    assert PrintsUniquely(render, "HTTPS") && PrintsUniquely(render, "Terminate") && PrintsUniquely(render, "Secret");
    assert PrintsUniquely(render, "All") && PrintsUniquely(render, w.hostname);
    assert PrintsUniquely(render, w.secret) && PrintsUniquely(render, w.secretNamespace);
  }
}
