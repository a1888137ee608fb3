/** The cluster-wide TLS singleton: one Certificate or a user's Secret, the grants that let the
    Gateways use it, and the two shared listeners
    (operator/internal/controller/clustertls_singleton.go). */
module SharedTls {
  import opened Wrappers
  import opened SpecTree
  import opened Listeners

  datatype Config = Config(
    baseDomain: string, operatorNamespace: string, clusterIssuer: string,
    tlsSecretName: string, // "" asks for a managed Certificate
    externalGateway: string, externalNamespace: string,
    internalGateway: string, internalNamespace: string,
    manageListeners: bool)

  datatype Kind = Certificate | ReferenceGrant | GatewayKind

  datatype Ref = Ref(kind: Kind, namespace: string, name: string)

  type Objects = map<Ref, Fields>

  const SHARED := "nebari-llm-shared-tls" // names both the Certificate and its Secret
  const EXTERNAL_LISTENER := "llm-https"
  const INTERNAL_LISTENER := "llm-internal-https"

  function SharedSecretName(cfg: Config): string {
    if cfg.tlsSecretName != "" then cfg.tlsSecretName else SHARED
  }

  function Metadata(ref: Ref): Value {
    Map(map["name" := Text(ref.name), "namespace" := Text(ref.namespace), "labels" := Map(map[
      "app.kubernetes.io/managed-by" := Text("nebari-llm-operator"),
      "app.kubernetes.io/name" := Text("shared-tls"),
      "app.kubernetes.io/component" := Text("routing")])])
  }

  function CertificateRefOf(cfg: Config): Ref {
    Ref(Certificate, cfg.operatorNamespace, SHARED)
  }

  function BuildSharedCertificate(cfg: Config): Fields {
    map["metadata" := Metadata(CertificateRefOf(cfg)), "spec" := Map(map[
      "secretName" := Text(SHARED),
      "dnsNames" := Seq([Text("llm." + cfg.baseDomain), Text("llm-internal." + cfg.baseDomain)]),
      "issuerRef" := Map(map["kind" := Text("ClusterIssuer"), "name" := Text(cfg.clusterIssuer),
                             "group" := Text("cert-manager.io")])])]
  }

  function GrantRef(cfg: Config, from: string): Ref {
    Ref(ReferenceGrant, cfg.operatorNamespace, SHARED + "-from-" + from)
  }

  function GrantFrom(namespace: string): Fields {
    map["group" := Text("gateway.networking.k8s.io"), "kind" := Text("Gateway"), "namespace" := Text(namespace)]
  }

  function GrantTo(secret: string): Fields {
    map["group" := Text(""), "kind" := Text("Secret"), "name" := Text(secret)]
  }

  function BuildSecretReferenceGrant(cfg: Config, from: string): Fields {
    map["metadata" := Metadata(GrantRef(cfg, from)), "spec" := Map(map[
      "from" := Seq([Map(GrantFrom(from))]),
      "to" := Seq([Map(GrantTo(SharedSecretName(cfg)))])])]
  }

  // ---------- one pass as a list of steps ----------

  /** What the API server stores when it is given a Gateway. */
  type Server = Fields -> Fields

  ghost predicate Verbatim(server: Server) {
    forall g :: server(g) == g
  }

  ghost predicate OnlyDecorates(server: Server) {
    forall g | ReadListeners(g).Listing? :: Decorates(server(g), g)
  }

  /** The server stores a Gateway as it is, or adds fields, provided no wanted leaf prints like an
      absent field, a list or a map. */
  ghost predicate Tolerable(render: Render, server: Server, w: Wanted) {
    Verbatim(server) || (OnlyDecorates(server) && LeavesApart(render, w))
  }

  datatype Step =
    | DeleteCertificate(ref: Ref)
    | Ensure(ref: Ref, desired: Fields)
    | PatchListener(ref: Ref, wanted: Wanted)
    | Refuse // no cluster issuer is configured

  function Spec(object_: Fields): Fields {
    AsMap(Get(object_, "spec"))
  }

  /** The cluster after one step, or None if the step fails without any API error. */
  function Apply(render: Render, server: Server, step: Step, objects: Objects): Option<Objects> {
    match step
    case DeleteCertificate(ref) => Some(objects - {ref})
    case Ensure(ref, desired) =>
      Some(if ref !in objects then objects[ref := desired]
           else if NestedSpecsEqual(render, Spec(desired), Spec(objects[ref])) then objects
           else objects[ref := objects[ref]["spec" := Map(Spec(desired))]])
    case PatchListener(ref, wanted) =>
      if ref !in objects then Some(objects)
      else
        (match Merged(render, objects[ref], wanted)
         case Unchanged => Some(objects)
         case Changed(root) => Some(objects[ref := server(root)])
         case Rejected => None)
    case Refuse => None
  }

  function TlsSource(cfg: Config): Step {
    if cfg.tlsSecretName != "" then DeleteCertificate(CertificateRefOf(cfg))
    else if cfg.clusterIssuer == "" then Refuse
    else Ensure(CertificateRefOf(cfg), BuildSharedCertificate(cfg))
  }

  function Grants(cfg: Config, namespaces: seq<string>): (steps: seq<Step>)
    ensures forall s :: s in steps ==> s.Ensure? && s.ref.kind == ReferenceGrant
  {
    if namespaces == [] then []
    else
      var first := if namespaces[0] == cfg.operatorNamespace then []
                   else [Ensure(GrantRef(cfg, namespaces[0]), BuildSecretReferenceGrant(cfg, namespaces[0]))];
      first + Grants(cfg, namespaces[1..])
  }

  function GatewayNamespaces(cfg: Config): seq<string> {
    if cfg.externalNamespace == cfg.internalNamespace then [cfg.externalNamespace]
    else [cfg.externalNamespace, cfg.internalNamespace]
  }

  function External(cfg: Config): Wanted {
    Wanted(EXTERNAL_LISTENER, "llm." + cfg.baseDomain, SharedSecretName(cfg), cfg.operatorNamespace)
  }

  function Internal(cfg: Config): Wanted {
    Wanted(INTERNAL_LISTENER, "llm-internal." + cfg.baseDomain, SharedSecretName(cfg), cfg.operatorNamespace)
  }

  function ExternalGateway(cfg: Config): Ref { Ref(GatewayKind, cfg.externalNamespace, cfg.externalGateway) }

  function InternalGateway(cfg: Config): Ref { Ref(GatewayKind, cfg.internalNamespace, cfg.internalGateway) }

  function Patches(cfg: Config): seq<Step> {
    if !cfg.manageListeners then []
    else [PatchListener(ExternalGateway(cfg), External(cfg)), PatchListener(InternalGateway(cfg), Internal(cfg))]
  }

  predicate Active(cfg: Config) {
    cfg.baseDomain != "" && cfg.operatorNamespace != ""
  }

  function Steps(cfg: Config): seq<Step> {
    if !Active(cfg) then [] else [TlsSource(cfg)] + Grants(cfg, GatewayNamespaces(cfg)) + Patches(cfg)
  }

  /** API calls of the n-th step of a pass may fail; nothing is written then. */
  type Faults = nat -> bool

  datatype Outcome = Outcome(objects: Objects, failed: bool)

  /** A pass stops at the first step that fails. */
  function Pass(render: Render, server: Server, steps: seq<Step>, objects: Objects, faults: Faults, n: nat): Outcome
    decreases |steps|
  {
    if steps == [] then Outcome(objects, false)
    else if faults(n) then Outcome(objects, true)
    else
      (match Apply(render, server, steps[0], objects)
       case None => Outcome(objects, true)
       case Some(next) => Pass(render, server, steps[1..], next, faults, n + 1))
  }

  lemma PassStep(render: Render, server: Server, steps: seq<Step>, objects: Objects, faults: Faults, n: nat)
    ensures steps == [] ==> Pass(render, server, steps, objects, faults, n) == Outcome(objects, false)
    ensures steps != [] ==>
      var next := Apply(render, server, steps[0], objects);
      Pass(render, server, steps, objects, faults, n)
      == if faults(n) || next.None? then Outcome(objects, true)
          else Pass(render, server, steps[1..], next.value, faults, n + 1)
  {}

  /** The reconciler, writing to the cluster one object at a time. */
  class Singleton {
    const render: Render
    const server: Server
    var objects: Objects

    constructor (render: Render, server: Server, objects: Objects)
      ensures this.render == render && this.server == server && this.objects == objects
    {
      this.render, this.server, this.objects := render, server, objects;
    }

    method DeleteManagedCertificate(ref: Ref, fault: bool) returns (failed: bool)
      modifies this
      ensures failed == fault
      ensures objects == if failed then old(objects) else old(objects) - {ref}
    {
      if fault { return true; }
      objects := objects - {ref};
      return false;
    }

    method CreateOrUpdate(ref: Ref, desired: Fields, fault: bool) returns (failed: bool)
      modifies this
      ensures failed == fault
      ensures Some(objects) == if failed then Some(old(objects))
          else Apply(render, server, Ensure(ref, desired), old(objects))
    {
      if fault { return true; }
      if ref !in objects {
        objects := objects[ref := desired];
        return false;
      }
      var current := objects[ref];
      if NestedSpecsEqual(render, Spec(desired), Spec(current)) { return false; }
      current := current["spec" := Map(Spec(desired))];
      objects := objects[ref := current];
      return false;
    }

    method PatchGatewayListener(ref: Ref, wanted: Wanted, fault: bool) returns (failed: bool)
      modifies this
      ensures failed <==> fault || Apply(render, server, PatchListener(ref, wanted), old(objects)).None?
      ensures Some(objects) == if failed then Some(old(objects))
          else Apply(render, server, PatchListener(ref, wanted), old(objects))
    {
      if fault { return true; }
      if ref !in objects { return false; }
      var gateway := new Gateway(objects[ref]);
      var changed, bad := gateway.MergeHTTPSListener(render, wanted);
      if bad { return true; }
      if !changed { return false; }
      objects := objects[ref := server(gateway.root)];
      return false;
    }

    method EnsureSource(cfg: Config, fault: bool) returns (failed: bool)
      modifies this
      ensures failed <==> fault || Apply(render, server, TlsSource(cfg), old(objects)).None?
      ensures Some(objects) == if failed then Some(old(objects))
          else Apply(render, server, TlsSource(cfg), old(objects))
    {
      if cfg.tlsSecretName != "" {
        failed := DeleteManagedCertificate(CertificateRefOf(cfg), fault);
      } else if cfg.clusterIssuer == "" {
        failed := true;
      } else {
        failed := CreateOrUpdate(CertificateRefOf(cfg), BuildSharedCertificate(cfg), fault);
      }
    }

    method PatchListeners(cfg: Config, faults: Faults, n: nat) returns (failed: bool)
      modifies this
      ensures Outcome(objects, failed) == Pass(render, server, Patches(cfg), old(objects), faults, n)
    {
      hide Apply, Pass, ExternalGateway, InternalGateway, External, Internal;
      PassStep(render, server, Patches(cfg), objects, faults, n);
      if !cfg.manageListeners { return false; }
      var internal := PatchListener(InternalGateway(cfg), Internal(cfg));
      assert Patches(cfg)[1..] == [internal];
      failed := PatchGatewayListener(ExternalGateway(cfg), External(cfg), faults(n));
      if failed { return true; }
      PassStep(render, server, [internal], objects, faults, n + 1);
      failed := PatchGatewayListener(InternalGateway(cfg), Internal(cfg), faults(n + 1));
      PassStep(render, server, [internal][1..], objects, faults, n + 2);
    }

    method Reconcile(cfg: Config, faults: Faults) returns (failed: bool)
      modifies this
      ensures Outcome(objects, failed) == Pass(render, server, Steps(cfg), old(objects), faults, 0)
    {
      hide Apply, Pass, BuildSharedCertificate, BuildSecretReferenceGrant, TlsSource, GatewayNamespaces, Patches;
      ghost var outcome := Pass(render, server, Steps(cfg), objects, faults, 0);
      PassStep(render, server, Steps(cfg), objects, faults, 0);
      if !Active(cfg) { return false; }
      var namespaces := GatewayNamespaces(cfg);
      assert Steps(cfg)[1..] == Grants(cfg, namespaces) + Patches(cfg);
      failed := EnsureSource(cfg, faults(0));
      if failed { return true; }
      var n := 1;
      for i := 0 to |namespaces|
        invariant n >= 1
        invariant outcome == Pass(render, server, Grants(cfg, namespaces[i..]) + Patches(cfg), objects, faults, n)
      {
        assert namespaces[i..][1..] == namespaces[i + 1..];
        ghost var rest, later := Grants(cfg, namespaces[i..]) + Patches(cfg),
            Grants(cfg, namespaces[i + 1..]) + Patches(cfg);
        if namespaces[i] == cfg.operatorNamespace {
          assert rest == later;
          continue;
        }
        assert rest == [Ensure(GrantRef(cfg, namespaces[i]), BuildSecretReferenceGrant(cfg, namespaces[i]))] + later;
        PassStep(render, server, rest, objects, faults, n);
        failed := CreateOrUpdate(GrantRef(cfg, namespaces[i]), BuildSecretReferenceGrant(cfg, namespaces[i]),
                                 faults(n));
        if failed { return true; }
        n := n + 1;
      }
      assert Grants(cfg, namespaces[|namespaces|..]) + Patches(cfg) == Patches(cfg);
      failed := PatchListeners(cfg, faults, n);
    }
  }

  // ---------- convergence ----------

  /** The step would change nothing. */
  ghost predicate Settled(render: Render, server: Server, step: Step, objects: Objects) {
    Apply(render, server, step, objects) == Some(objects)
  }

  ghost predicate TolerableStep(render: Render, server: Server, step: Step) {
    step.PatchListener? ==> Tolerable(render, server, step.wanted)
  }

  lemma StoredSatisfies(render: Render, server: Server, obj: Fields, w: Wanted)
    requires Merged(render, obj, w).Changed? && Tolerable(render, server, w)
    ensures Satisfied(render, server(Merged(render, obj, w).root), w)
  {
    var root := Merged(render, obj, w).root;
    if Verbatim(server) {
      MergeSatisfies(render, obj, w);
    } else {
      assert ReadListeners(root).Listing?;
      MergeAgainIsNoOp(render, obj, w, server(root));
    }
  }

  lemma ApplySettles(render: Render, server: Server, step: Step, objects: Objects)
    requires TolerableStep(render, server, step)
    ensures match Apply(render, server, step, objects)
            case None => true
            case Some(next) => Settled(render, server, step, next)
  {
    match step
    case DeleteCertificate(ref) => assert objects - {ref} - {ref} == objects - {ref};
    case Ensure(ref, desired) => NestedSpecsEqualReflexive(render, Spec(desired));
    case PatchListener(ref, wanted) =>
      if ref in objects && Merged(render, objects[ref], wanted).Changed? {
        StoredSatisfies(render, server, objects[ref], wanted);
      }
      hide Merged;
    case Refuse =>
  }

  predicate Independent(a: Step, b: Step) {
    || a.Refuse? || b.Refuse?
    || a.ref != b.ref
    || (a.PatchListener? && b.PatchListener? && a.wanted.listener != b.wanted.listener)
  }

  lemma StoredKeepsSatisfied(render: Render, server: Server, obj: Fields, mine: Wanted, other: Wanted)
    requires Satisfied(render, obj, mine) && mine.listener != other.listener && Tolerable(render, server, mine)
    requires Merged(render, obj, other).Changed?
    ensures Satisfied(render, server(Merged(render, obj, other).root), mine)
  {
    var root := Merged(render, obj, other).root;
    assert ReadListeners(root).Listing?;
    hide Merged;
    MergesIndependent(render, obj, mine, other);
    if !Verbatim(server) { DecoratedStaysSatisfied(render, root, mine, server(root)); }
  }

  lemma OtherPatchKeepsSettled(render: Render, server: Server, ref: Ref, mine: Wanted, other: Wanted, objects: Objects)
    requires Settled(render, server, PatchListener(ref, mine), objects) && mine.listener != other.listener
    requires Tolerable(render, server, mine)
    requires Apply(render, server, PatchListener(ref, other), objects).Some?
    ensures Settled(render, server, PatchListener(ref, mine),
                    Apply(render, server, PatchListener(ref, other), objects).value)
  {
    hide Merged, Tolerable;
    if ref in objects && Merged(render, objects[ref], other).Changed? {
      var next := objects[ref := server(Merged(render, objects[ref], other).root)];
      SettledPatch(render, server, ref, mine, objects);
      StoredKeepsSatisfied(render, server, objects[ref], mine, other);
      assert Merged(render, next[ref], mine) == Unchanged;
    }
  }

  lemma SettledPatch(render: Render, server: Server, ref: Ref, w: Wanted, objects: Objects)
    requires Tolerable(render, server, w)
    ensures Settled(render, server, PatchListener(ref, w), objects) <==>
            (ref in objects ==> Listeners.Satisfied(render, objects[ref], w))
  {
    hide Merged, Tolerable;
    if ref in objects && Merged(render, objects[ref], w).Changed? {
      StoredSatisfies(render, server, objects[ref], w);
      var stored := server(Merged(render, objects[ref], w).root);
      assert stored != objects[ref];
      assert objects[ref := stored][ref] == stored;
    }
  }

  lemma OtherStepsKeepSettled(render: Render, server: Server, step: Step, other: Step, objects: Objects)
    requires Settled(render, server, step, objects) && Independent(step, other) && TolerableStep(render, server, step)
    requires Apply(render, server, other, objects).Some?
    ensures Settled(render, server, step, Apply(render, server, other, objects).value)
  {
    hide Merged, NestedSpecsEqual;
    var next := Apply(render, server, other, objects).value;
    if step.ref == other.ref {
      OtherPatchKeepsSettled(render, server, step.ref, step.wanted, other.wanted, objects);
    } else {
      OnlyItsObject(render, server, other, objects);
      hide Apply;
      assert step.ref in objects <==> step.ref in objects - {other.ref};
      assert step.ref in next <==> step.ref in next - {other.ref};
      SettledIsLocal(render, server, step, objects, next);
    }
  }

  lemma OnlyItsObject(render: Render, server: Server, step: Step, objects: Objects)
    requires Apply(render, server, step, objects).Some?
    ensures Apply(render, server, step, objects).value - {step.ref} == objects - {step.ref}
  {}

  lemma SettledIsLocal(render: Render, server: Server, step: Step, objects: Objects, next: Objects)
    requires Settled(render, server, step, objects)
    requires step.ref in objects <==> step.ref in next
    requires step.ref in objects ==> next[step.ref] == objects[step.ref]
    ensures Settled(render, server, step, next)
  {
    match step
    case DeleteCertificate(ref) =>
      assert ref !in objects;
      assert next - {ref} == next;
    case Ensure(ref, desired) =>
      assert ref in objects;
      assert next[ref := next[ref]] == next;
    case PatchListener(ref, wanted) =>
      hide Merged;
      if ref in objects && Merged(render, objects[ref], wanted).Changed? {
        var stored := server(Merged(render, objects[ref], wanted).root);
        assert objects[ref := stored][ref] == stored;
        assert next[ref := stored] == next;
      }
    case Refuse =>
  }

  ghost predicate AllSettled(render: Render, server: Server, steps: seq<Step>, objects: Objects) {
    forall s | s in steps :: Settled(render, server, s, objects)
  }

  ghost predicate PairwiseIndependent(steps: seq<Step>) {
    forall i, j | 0 <= i < j < |steps| :: Independent(steps[i], steps[j])
  }

  lemma {:induction false} GrantsAreFor(cfg: Config, namespaces: seq<string>)
    ensures forall s :: s in Grants(cfg, namespaces) ==>
      exists ns :: ns in namespaces && ns != cfg.operatorNamespace
        && s == Ensure(GrantRef(cfg, ns), BuildSecretReferenceGrant(cfg, ns))
    ensures forall ns :: ns in namespaces && ns != cfg.operatorNamespace ==>
      Ensure(GrantRef(cfg, ns), BuildSecretReferenceGrant(cfg, ns)) in Grants(cfg, namespaces)
  {
    hide BuildSecretReferenceGrant, GrantRef;
    if namespaces != [] {
      GrantsAreFor(cfg, namespaces[1..]);
      assert namespaces == [namespaces[0]] + namespaces[1..];
    }
  }

  lemma GrantRefInjective(cfg: Config, a: string, b: string)
    requires a != b
    ensures GrantRef(cfg, a) != GrantRef(cfg, b)
  {
    var prefix := SHARED + "-from-";
    assert (prefix + a)[|prefix|..] == a && (prefix + b)[|prefix|..] == b;
  }

  lemma {:induction false} GrantsIndependent(cfg: Config, namespaces: seq<string>)
    requires forall i, j :: 0 <= i < j < |namespaces| ==> namespaces[i] != namespaces[j]
    ensures PairwiseIndependent(Grants(cfg, namespaces))
  {
    if namespaces != [] {
      GrantsIndependent(cfg, namespaces[1..]);
      GrantsAreFor(cfg, namespaces[1..]);
      hide BuildSecretReferenceGrant, GrantRef;
      forall s | s in Grants(cfg, namespaces[1..]) ensures s.ref != GrantRef(cfg, namespaces[0]) {
        var ns :| ns in namespaces[1..] && s == Ensure(GrantRef(cfg, ns), BuildSecretReferenceGrant(cfg, ns));
        GrantRefInjective(cfg, ns, namespaces[0]);
      }
    }
  }

  lemma IndependentJoin(a: seq<Step>, b: seq<Step>)
    requires PairwiseIndependent(a) && PairwiseIndependent(b)
    requires forall s, t :: s in a && t in b ==> Independent(s, t)
    ensures PairwiseIndependent(a + b)
  {
    forall i, j | 0 <= i < j < |a + b| ensures Independent((a + b)[i], (a + b)[j]) {
      if i < |a| { assert (a + b)[i] == a[i]; } else { assert (a + b)[i] == b[i - |a|]; }
      if j < |a| { assert (a + b)[j] == a[j]; } else { assert (a + b)[j] == b[j - |a|]; }
    }
  }

  /** No two steps of a pass write the same object, except the two listener patches when both
      shared Gateways are the same one. */
  lemma StepsIndependent(cfg: Config)
    ensures PairwiseIndependent(Steps(cfg))
  {
    if Active(cfg) {
      var source, grants, patches := [TlsSource(cfg)], Grants(cfg, GatewayNamespaces(cfg)), Patches(cfg);
      GrantsIndependent(cfg, GatewayNamespaces(cfg));
      hide Grants, BuildSharedCertificate;
      assert PairwiseIndependent(patches);
      IndependentJoin(source, grants);
      IndependentJoin(source + grants, patches);
    }
  }

  lemma {:induction false} PassSettles(render: Render, server: Server, steps: seq<Step>, done: seq<Step>,
                                       objects: Objects,
                                       faults: Faults, n: nat)
    requires PairwiseIndependent(done + steps) && AllSettled(render, server, done, objects)
    requires forall s :: s in done + steps ==> TolerableStep(render, server, s)
    requires !Pass(render, server, steps, objects, faults, n).failed
    ensures AllSettled(render, server, done + steps, Pass(render, server, steps, objects, faults, n).objects)
    decreases |steps|
  {
    hide Apply, Settled, Independent, TolerableStep;
    PassStep(render, server, steps, objects, faults, n);
    if steps == [] {
      assert done + steps == done;
    } else {
      var next := Apply(render, server, steps[0], objects).value;
      assert done + steps == (done + [steps[0]]) + steps[1..];
      ApplySettles(render, server, steps[0], objects);
      forall s | s in done ensures Settled(render, server, s, next) {
        var i :| 0 <= i < |done| && done[i] == s;
        assert (done + steps)[i] == s && (done + steps)[|done|] == steps[0];
        OtherStepsKeepSettled(render, server, s, steps[0], objects);
      }
      PassSettles(render, server, steps[1..], done + [steps[0]], next, faults, n + 1);
    }
  }

  lemma {:induction false} SettledPassChangesNothing(render: Render, server: Server, steps: seq<Step>,
                                                     objects: Objects, faults: Faults, n: nat)
    requires AllSettled(render, server, steps, objects)
    ensures Pass(render, server, steps, objects, faults, n).objects == objects
    ensures (forall i: nat :: !faults(i)) ==> !Pass(render, server, steps, objects, faults, n).failed
    decreases |steps|
  {
    hide Apply;
    PassStep(render, server, steps, objects, faults, n);
    if steps != [] && !faults(n) {
      assert Settled(render, server, steps[0], objects);
      SettledPassChangesNothing(render, server, steps[1..], objects, faults, n + 1);
    }
  }

  /** The server is tolerable for both shared listeners. */
  ghost predicate TolerableFor(render: Render, server: Server, cfg: Config) {
    Tolerable(render, server, External(cfg)) && Tolerable(render, server, Internal(cfg))
  }

  lemma StepsTolerable(render: Render, server: Server, cfg: Config)
    requires TolerableFor(render, server, cfg)
    ensures forall s :: s in Steps(cfg) ==> TolerableStep(render, server, s)
  {
    hide BuildSharedCertificate, Tolerable, External, Internal;
  }

  lemma PassLeavesAllSettled(render: Render, server: Server, cfg: Config, objects: Objects, faults: Faults)
    requires TolerableFor(render, server, cfg) && !Pass(render, server, Steps(cfg), objects, faults, 0).failed
    ensures AllSettled(render, server, Steps(cfg), Pass(render, server, Steps(cfg), objects, faults, 0).objects)
  {
    StepsIndependent(cfg);
    StepsTolerable(render, server, cfg);
    hide Apply, Pass, Settled, Steps, Independent, TolerableStep, TolerableFor;
    assert [] + Steps(cfg) == Steps(cfg);
    PassSettles(render, server, Steps(cfg), [], objects, faults, 0);
  }

  /** Convergence: whatever the cluster held before, and whatever the server adds to the Gateways it
      stores, after a pass that returns nil a second pass changes nothing, however far it gets, and
      succeeds if its API calls do. */
  lemma SecondPassChangesNothing(render: Render, server: Server, cfg: Config, objects: Objects, faults: Faults,
                                 later: Faults)
    requires TolerableFor(render, server, cfg) && !Pass(render, server, Steps(cfg), objects, faults, 0).failed
    ensures var after := Pass(render, server, Steps(cfg), objects, faults, 0).objects;
      && Pass(render, server, Steps(cfg), after, later, 0).objects == after
      && ((forall i: nat :: !later(i)) ==> !Pass(render, server, Steps(cfg), after, later, 0).failed)
  {
    PassLeavesAllSettled(render, server, cfg, objects, faults);
    hide Apply, Pass, Settled, Steps;
    SettledPassChangesNothing(render, server, Steps(cfg), Pass(render, server, Steps(cfg), objects, faults, 0).objects,
                              later, 0);
  }

  // ---------- what a completed pass leaves behind ----------

  /** An ensured object is left alone exactly when its spec compares equal to the wanted one; a
      server that adds defaults to it is overwritten at every pass. */
  lemma EnsureSettledExactly(render: Render, server: Server, ref: Ref, desired: Fields, objects: Objects)
    requires "spec" in desired
    ensures Settled(render, server, Ensure(ref, desired), objects)
      <==> ref in objects && (NestedSpecsEqual(render, Spec(desired), Spec(objects[ref]))
                              || Get(objects[ref], "spec") == Map(Spec(desired)))
  {
    if ref in objects {
      var written := objects[ref := objects[ref]["spec" := Map(Spec(desired))]];
      assert written[ref]["spec"] == Map(Spec(desired));
      if "spec" in objects[ref] && objects[ref]["spec"] == Map(Spec(desired)) {
        NestedSpecsEqualReflexive(render, Spec(desired));
      }
    } else {
      assert ref in objects[ref := desired];
    }
  }

  lemma StepsInclude(cfg: Config)
    requires Active(cfg)
    ensures TlsSource(cfg) in Steps(cfg)
    ensures forall ns :: ns in GatewayNamespaces(cfg) && ns != cfg.operatorNamespace ==>
      Ensure(GrantRef(cfg, ns), BuildSecretReferenceGrant(cfg, ns)) in Steps(cfg)
    ensures cfg.manageListeners ==>
      && PatchListener(ExternalGateway(cfg), External(cfg)) in Steps(cfg)
      && PatchListener(InternalGateway(cfg), Internal(cfg)) in Steps(cfg)
  {
    GrantsAreFor(cfg, GatewayNamespaces(cfg));
    hide TlsSource, BuildSecretReferenceGrant, GrantRef, ExternalGateway, InternalGateway, External, Internal;
  }

  // ---------- what a pass leaves alone ----------

  /** Objects no step names are untouched, however the pass ends. */
  lemma {:induction false} PassTouchesNamedOnly(render: Render, server: Server, steps: seq<Step>, objects: Objects,
                                                faults: Faults, n: nat, ref: Ref)
    requires forall s :: s in steps ==> s.Refuse? || s.ref != ref
    ensures var after := Pass(render, server, steps, objects, faults, n).objects;
      && (ref in after <==> ref in objects)
      && (ref in objects ==> after[ref] == objects[ref])
    decreases |steps|
  {
    PassStep(render, server, steps, objects, faults, n);
    if steps != [] && !faults(n) && Apply(render, server, steps[0], objects).Some? {
      var next := Apply(render, server, steps[0], objects).value;
      OnlyItsObject(render, server, steps[0], objects);
      hide Apply, Pass;
      assert ref in objects <==> ref in objects - {steps[0].ref};
      assert ref in next <==> ref in next - {steps[0].ref};
      PassTouchesNamedOnly(render, server, steps[1..], next, faults, n + 1, ref);
    }
  }

  /** A listener as the server keeps it: as it was, or with fields added by a server that adds some. */
  ghost predicate Kept(server: Server, v': Value, v: Value) {
    Extends(v', v) && (Verbatim(server) ==> v' == v)
  }

  predicate Foreign(v: Value) {
    !Named(v, EXTERNAL_LISTENER) && !Named(v, INTERNAL_LISTENER)
  }

  /** Every listener of `before` that is not one of the two shared ones is in the same place in `after`. */
  ghost predicate KeepsForeignListeners(server: Server, before: Fields, after: Fields) {
    forall i | 0 <= i < |Current(before)| && Foreign(Current(before)[i]) ::
      i < |Current(after)| && Kept(server, Current(after)[i], Current(before)[i]) && Foreign(Current(after)[i])
  }

  lemma {:induction false} ExtendsTransitive(a: Value, b: Value, c: Value)
    requires Extends(a, b) && Extends(b, c)
    ensures Extends(a, c)
    decreases c
  {
    match c
    case Leaf(_) =>
    case Seq(items) => forall i | 0 <= i < |items| { ExtendsTransitive(a.items[i], b.items[i], items[i]); }
    case Map(fields) => forall k | k in fields { ExtendsTransitive(a.fields[k], b.fields[k], fields[k]); }
  }

  lemma ForeignKeptOn(server: Server, a: Fields, b: Fields, c: Fields)
    requires KeepsForeignListeners(server, a, b) && KeepsForeignListeners(server, b, c)
    ensures KeepsForeignListeners(server, a, c)
  {
    forall i | 0 <= i < |Current(a)| && Foreign(Current(a)[i])
      ensures i < |Current(c)| && Kept(server, Current(c)[i], Current(a)[i]) && Foreign(Current(c)[i]) {
      ExtendsTransitive(Current(c)[i], Current(b)[i], Current(a)[i]);
    }
  }

  lemma ForeignKeptSelf(server: Server, a: Fields)
    ensures KeepsForeignListeners(server, a, a)
  {
    forall i | 0 <= i < |Current(a)| { ExtendsReflexive(Current(a)[i]); }
  }

  predicate PatchesSharedOnly(step: Step) {
    match step
    case PatchListener(_, w) => w.listener in {EXTERNAL_LISTENER, INTERNAL_LISTENER}
    case Ensure(ref, _) => ref.kind != GatewayKind
    case DeleteCertificate(ref) => ref.kind != GatewayKind
    case Refuse => true
  }

  lemma MergeKeepsForeign(render: Render, obj: Fields, w: Wanted)
    requires w.listener in {EXTERNAL_LISTENER, INTERNAL_LISTENER} && Merged(render, obj, w).Changed?
    ensures ReadListeners(Merged(render, obj, w).root).Listing?
    ensures var before, after := Current(obj), Current(Merged(render, obj, w).root);
      forall i :: 0 <= i < |before| && Foreign(before[i]) ==> i < |after| && after[i] == before[i]
  {
    MergeTouchesOne(render, obj, w);
  }

  /** Storing the merged Gateway. */
  lemma StoredKeepsForeign(render: Render, server: Server, obj: Fields, w: Wanted)
    requires w.listener in {EXTERNAL_LISTENER, INTERNAL_LISTENER} && Merged(render, obj, w).Changed?
    requires Verbatim(server) || OnlyDecorates(server)
    ensures KeepsForeignListeners(server, obj, server(Merged(render, obj, w).root))
  {
    MergeKeepsForeign(render, obj, w);
    hide Merged;
    var root := Merged(render, obj, w).root;
    var before, after := Current(obj), Current(server(root));
    forall i | 0 <= i < |before| && Foreign(before[i])
      ensures i < |after| && Kept(server, after[i], before[i]) && Foreign(after[i]) {
      if Verbatim(server) { ExtendsReflexive(before[i]); }
    }
  }

  lemma {:induction false} StepsKeepForeign(render: Render, server: Server, steps: seq<Step>, objects: Objects,
                                            faults: Faults, n: nat, gateway: Ref)
    requires forall s :: s in steps ==> PatchesSharedOnly(s)
    requires Verbatim(server) || OnlyDecorates(server)
    requires gateway.kind == GatewayKind && gateway in objects
    ensures gateway in Pass(render, server, steps, objects, faults, n).objects
    ensures KeepsForeignListeners(server, objects[gateway],
                                  Pass(render, server, steps, objects, faults, n).objects[gateway])
    decreases |steps|
  {
    PassStep(render, server, steps, objects, faults, n);
    if steps != [] && !faults(n) && Apply(render, server, steps[0], objects).Some? {
      var next := Apply(render, server, steps[0], objects).value;
      StepKeepsForeign(render, server, steps[0], objects, gateway);
      hide Apply, Pass, KeepsForeignListeners;
      StepsKeepForeign(render, server, steps[1..], next, faults, n + 1, gateway);
      ForeignKeptOn(server, objects[gateway], next[gateway],
                    Pass(render, server, steps, objects, faults, n).objects[gateway]);
    } else {
      ForeignKeptSelf(server, objects[gateway]);
    }
  }

  lemma StepKeepsForeign(render: Render, server: Server, step: Step, objects: Objects, gateway: Ref)
    requires Verbatim(server) || OnlyDecorates(server)
    requires PatchesSharedOnly(step) && gateway.kind == GatewayKind && gateway in objects
    requires Apply(render, server, step, objects).Some?
    ensures gateway in Apply(render, server, step, objects).value
    ensures KeepsForeignListeners(server, objects[gateway], Apply(render, server, step, objects).value[gateway])
  {
    if step.PatchListener? && step.ref == gateway && Merged(render, objects[gateway], step.wanted).Changed? {
      StoredKeepsForeign(render, server, objects[gateway], step.wanted);
      hide Merged, KeepsForeignListeners;
    } else {
      ForeignKeptSelf(server, objects[gateway]);
      hide Merged, KeepsForeignListeners;
    }
  }

  lemma StepsPatchSharedOnly(cfg: Config)
    ensures forall s :: s in Steps(cfg) ==> PatchesSharedOnly(s)
  {
    GrantsAreFor(cfg, GatewayNamespaces(cfg));
    hide BuildSharedCertificate, BuildSecretReferenceGrant;
  }

  /** On a Gateway a pass never moves, alters or drops anybody else's listener. */
  lemma PassKeepsForeignListeners(render: Render, server: Server, cfg: Config, objects: Objects, faults: Faults,
                                  gateway: Ref)
    requires Verbatim(server) || OnlyDecorates(server)
    requires gateway.kind == GatewayKind && gateway in objects
    ensures var after := Pass(render, server, Steps(cfg), objects, faults, 0).objects;
      gateway in after && KeepsForeignListeners(server, objects[gateway], after[gateway])
  {
    StepsPatchSharedOnly(cfg);
    hide Steps, Pass, KeepsForeignListeners, PatchesSharedOnly;
    StepsKeepForeign(render, server, Steps(cfg), objects, faults, 0, gateway);
  }
}
