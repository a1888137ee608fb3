/** What a pass of the TLS singleton leaves in the cluster, in the configuration's own terms
    (operator/internal/controller/clustertls_singleton.go). */
module TlsOutcome {
  import opened Wrappers
  import opened SpecTree
  import opened Listeners
  import opened SharedTls

  ghost predicate NoFault(faults: Faults) {
    forall i: nat :: !faults(i)
  }

  // ---------- when a pass fails ----------

  /** The listeners of the Gateway cannot be read or written: its spec, or their list, has another type. */
  predicate Unreadable(gateway: Fields) {
    "spec" in gateway
    && (!gateway["spec"].Map? || ("listeners" in gateway["spec"].fields && !gateway["spec"].fields["listeners"].Seq?))
  }

  lemma RejectedExactly(render: Render, gateway: Fields, w: Wanted)
    ensures Merged(render, gateway, w).Rejected? <==> Unreadable(gateway)
  {}

  predicate Blocked(step: Step, objects: Objects) {
    step.Refuse? || (step.PatchListener? && step.ref in objects && Unreadable(objects[step.ref]))
  }

  predicate WellKinded(step: Step) {
    && (step.PatchListener? ==> step.ref.kind == GatewayKind)
    && (step.Ensure? || step.DeleteCertificate? ==> step.ref.kind != GatewayKind)
  }

  lemma BlockedExactly(render: Render, server: Server, step: Step, objects: Objects)
    ensures Apply(render, server, step, objects).None? <==> Blocked(step, objects)
  {
    if step.PatchListener? && step.ref in objects { RejectedExactly(render, objects[step.ref], step.wanted); }
    hide Merged, Unreadable, NestedSpecsEqual;
  }

  /** The server gives back listeners that can be read. */
  ghost predicate Sane(server: Server) {
    Verbatim(server) || OnlyDecorates(server)
  }

  lemma StaysBlocked(render: Render, server: Server, step: Step, objects: Objects, other: Step)
    requires Sane(server) && WellKinded(step) && WellKinded(other)
    requires Apply(render, server, step, objects).Some?
    ensures Blocked(other, Apply(render, server, step, objects).value) <==> Blocked(other, objects)
  {
    BlockedExactly(render, server, step, objects);
    var next := Apply(render, server, step, objects).value;
    if other.PatchListener? {
      if step.PatchListener? && step.ref == other.ref {
        if step.ref in objects && Merged(render, objects[step.ref], step.wanted).Changed? {
          var root := Merged(render, objects[step.ref], step.wanted).root;
          assert ReadListeners(root).Listing?;
          assert ReadListeners(server(root)).Listing?;
        }
      } else if !step.Refuse? {
        hide Merged, NestedSpecsEqual, Unreadable;
        OnlyItsObject(render, server, step, objects);
        assert other.ref in objects <==> other.ref in objects - {step.ref};
        assert other.ref in next <==> other.ref in next - {step.ref};
      }
    }
  }

  lemma {:induction false} PassFailsIfBlocked(render: Render, server: Server, steps: seq<Step>, objects: Objects,
                                              faults: Faults, n: nat)
    requires Sane(server) && NoFault(faults) && forall s :: s in steps ==> WellKinded(s)
    ensures Pass(render, server, steps, objects, faults, n).failed <==> exists s :: s in steps && Blocked(s, objects)
    decreases |steps|
  {
    hide Apply, Pass, Blocked, WellKinded;
    PassStep(render, server, steps, objects, faults, n);
    if steps != [] {
      BlockedExactly(render, server, steps[0], objects);
      if !Blocked(steps[0], objects) {
        var next := Apply(render, server, steps[0], objects).value;
        forall s | s in steps ensures Blocked(s, next) <==> Blocked(s, objects) {
          StaysBlocked(render, server, steps[0], objects, s);
        }
        PassFailsIfBlocked(render, server, steps[1..], next, faults, n + 1);
        assert steps == [steps[0]] + steps[1..];
      }
    }
  }

  ghost predicate UnreadableAt(objects: Objects, gateway: Ref) {
    gateway in objects && Unreadable(objects[gateway])
  }

  /** Without API errors a pass fails exactly when a Certificate is wanted and no issuer is
      configured, or one of the Gateways to patch has listeners that cannot be read. */
  lemma UndisturbedPassFailsExactly(render: Render, server: Server, cfg: Config, objects: Objects, faults: Faults)
    requires Sane(server) && NoFault(faults)
    ensures Pass(render, server, Steps(cfg), objects, faults, 0).failed <==>
      && cfg.baseDomain != "" && cfg.operatorNamespace != ""
      && (|| (cfg.tlsSecretName == "" && cfg.clusterIssuer == "")
          || (cfg.manageListeners
              && (|| UnreadableAt(objects, Ref(GatewayKind, cfg.externalNamespace, cfg.externalGateway))
                  || UnreadableAt(objects, Ref(GatewayKind, cfg.internalNamespace, cfg.internalGateway)))))
  {
    GrantsAreFor(cfg, GatewayNamespaces(cfg));
    hide BuildSharedCertificate, BuildSecretReferenceGrant, Unreadable, Pass, Apply, Sane, NoFault;
    PassFailsIfBlocked(render, server, Steps(cfg), objects, faults, 0);
    if Active(cfg) { StepsInclude(cfg); }
  }

  // ---------- what a completed pass leaves behind ----------

  /** The Gateway, if it is there, has a listener of that name that serves the host with the Secret. */
  ghost predicate Serves(render: Render, objects: Objects, gateway: Ref, w: Wanted) {
    gateway in objects ==>
      var listeners := Current(objects[gateway]);
      var i := Position(listeners, w.listener);
      i < |listeners| && ServesAs(render, listeners[i].fields, w)
  }

  /** The grant lets Gateways of namespace `from` use the Secret, and says nothing else. */
  ghost predicate Permits(objects: Objects, grant: Ref, from: string, secret: string) {
    grant in objects && Spec(objects[grant]) == map[
      "from" := Seq([Map(map["group" := Text("gateway.networking.k8s.io"), "kind" := Text("Gateway"),
                             "namespace" := Text(from)])]),
      "to" := Seq([Map(map["group" := Text(""), "kind" := Text("Secret"), "name" := Text(secret)])])]
  }

  /** The Certificate asks the issuer for the two hosts, into the Secret of that name. */
  ghost predicate Certifies(objects: Objects, certificate: Ref, secret: string, hosts: seq<string>, issuer: string)
    requires |hosts| == 2
  {
    certificate in objects && Spec(objects[certificate]) == map[
      "secretName" := Text(secret),
      "dnsNames" := Seq([Text(hosts[0]), Text(hosts[1])]),
      "issuerRef" := Map(map["kind" := Text("ClusterIssuer"), "name" := Text(issuer),
                             "group" := Text("cert-manager.io")])]
  }

  /** Nothing but the texts themselves prints like one of the texts that a pass writes. */
  ghost predicate TextsUnique(render: Render, cfg: Config) {
    forall s | s in ["", "Secret", "Gateway", "gateway.networking.k8s.io", "HTTPS", "Terminate", "All",
                     "ClusterIssuer", "cert-manager.io", "nebari-llm-shared-tls",
                     cfg.tlsSecretName, cfg.clusterIssuer, cfg.operatorNamespace,
                     cfg.externalNamespace, cfg.internalNamespace,
                     "llm." + cfg.baseDomain, "llm-internal." + cfg.baseDomain] :: PrintsUniquely(render, s)
  }

  /** The shared Secret (the user's if one is named) may be used by the Gateways of both namespaces, and
      in managed mode the Certificate asks for it. */
  ghost predicate SecretInPlace(cfg: Config, objects: Objects) {
    var secret := if cfg.tlsSecretName != "" then cfg.tlsSecretName else "nebari-llm-shared-tls";
    var certificate := Ref(Certificate, cfg.operatorNamespace, "nebari-llm-shared-tls");
    && (forall ns | ns in [cfg.externalNamespace, cfg.internalNamespace] && ns != cfg.operatorNamespace ::
          Permits(objects, Ref(ReferenceGrant, cfg.operatorNamespace, "nebari-llm-shared-tls-from-" + ns), ns, secret))
    && (if cfg.tlsSecretName != "" then certificate !in objects
        else Certifies(objects, certificate, secret, ["llm." + cfg.baseDomain, "llm-internal." + cfg.baseDomain],
                       cfg.clusterIssuer))
  }

  /** What is in place after a pass. */
  ghost predicate InPlace(render: Render, cfg: Config, objects: Objects) {
    var secret := if cfg.tlsSecretName != "" then cfg.tlsSecretName else "nebari-llm-shared-tls";
    && SecretInPlace(cfg, objects)
    && (cfg.manageListeners ==>
          && Serves(render, objects, Ref(GatewayKind, cfg.externalNamespace, cfg.externalGateway),
                    Wanted("llm-https", "llm." + cfg.baseDomain, secret, cfg.operatorNamespace))
          && Serves(render, objects, Ref(GatewayKind, cfg.internalNamespace, cfg.internalGateway),
                    Wanted("llm-internal-https", "llm-internal." + cfg.baseDomain, secret, cfg.operatorNamespace)))
  }

  lemma SettledSpec(render: Render, server: Server, ref: Ref, desired: Fields, objects: Objects)
    requires Settled(render, server, Ensure(ref, desired), objects)
    requires "spec" in desired && PrintsApart(render, Map(Spec(desired)))
    ensures ref in objects && Spec(objects[ref]) == Spec(desired)
  {
    EnsureSettledExactly(render, server, ref, desired, objects);
    hide Settled, PrintsApart;
    if NestedSpecsEqual(render, Spec(desired), Spec(objects[ref])) {
      NestedSpecsEqualSound(render, Spec(desired), Spec(objects[ref]));
    }
  }

  lemma TextsPrintApart(render: Render, entry: Fields)
    requires forall k :: k in entry ==> exists t :: entry[k] == Text(t) && PrintsUniquely(render, t)
    ensures PrintsApart(render, Map(entry))
  {}

  lemma PairPrintsApart(render: Render, a: string, b: string)
    requires PrintsUniquely(render, a) && PrintsUniquely(render, b)
    ensures PrintsApart(render, Seq([Text(a), Text(b)]))
  {}

  lemma OnePrintsApart(render: Render, v: Value)
    requires PrintsApart(render, v)
    ensures PrintsApart(render, Seq([v]))
  {}

  lemma PartsPrintApart(render: Render, fields: Fields)
    requires forall k :: k in fields ==> PrintsApart(render, fields[k])
    ensures PrintsApart(render, Map(fields))
  {}

  lemma GrantPrintsApart(render: Render, cfg: Config, ns: string)
    requires TextsUnique(render, cfg) && ns in [cfg.externalNamespace, cfg.internalNamespace]
    ensures PrintsApart(render, Map(Spec(BuildSecretReferenceGrant(cfg, ns))))
  {
    assert PrintsUniquely(render, "") && PrintsUniquely(render, "Secret") && PrintsUniquely(render, "Gateway");
    assert PrintsUniquely(render, "gateway.networking.k8s.io") && PrintsUniquely(render, ns);
    assert PrintsUniquely(render, SharedSecretName(cfg));
    hide TextsUnique, PrintsUniquely, PrintsApart, SharedSecretName;
    TextsPrintApart(render, GrantFrom(ns));
    TextsPrintApart(render, GrantTo(SharedSecretName(cfg)));
    OnePrintsApart(render, Map(GrantFrom(ns)));
    OnePrintsApart(render, Map(GrantTo(SharedSecretName(cfg))));
    hide GrantFrom, GrantTo;
    PartsPrintApart(render, Spec(BuildSecretReferenceGrant(cfg, ns)));
  }

  lemma CertificatePrintsApart(render: Render, cfg: Config)
    requires TextsUnique(render, cfg)
    ensures PrintsApart(render, Map(Spec(BuildSharedCertificate(cfg))))
  {
    assert PrintsUniquely(render, "ClusterIssuer") && PrintsUniquely(render, "cert-manager.io");
    assert PrintsUniquely(render, SHARED) && PrintsUniquely(render, cfg.clusterIssuer);
    assert PrintsUniquely(render, "llm." + cfg.baseDomain) && PrintsUniquely(render, "llm-internal." + cfg.baseDomain);
    TextApart(render, SHARED);
    hide TextsUnique, PrintsUniquely, PrintsApart;
    var spec := Spec(BuildSharedCertificate(cfg));
    PairPrintsApart(render, "llm." + cfg.baseDomain, "llm-internal." + cfg.baseDomain);
    TextsPrintApart(render, spec["issuerRef"].fields);
    PartsPrintApart(render, spec);
  }

  lemma TextApart(render: Render, s: string)
    requires PrintsUniquely(render, s)
    ensures PrintsApart(render, Text(s))
  {}

  lemma SettledGrantPermits(render: Render, server: Server, cfg: Config, ns: string, objects: Objects)
    requires TextsUnique(render, cfg) && ns in [cfg.externalNamespace, cfg.internalNamespace]
    requires Settled(render, server, Ensure(GrantRef(cfg, ns), BuildSecretReferenceGrant(cfg, ns)), objects)
    ensures Permits(objects, Ref(ReferenceGrant, cfg.operatorNamespace, "nebari-llm-shared-tls-from-" + ns), ns,
                    if cfg.tlsSecretName != "" then cfg.tlsSecretName else "nebari-llm-shared-tls")
  {
    GrantPrintsApart(render, cfg, ns);
    hide Settled, PrintsApart, TextsUnique;
    SettledSpec(render, server, GrantRef(cfg, ns), BuildSecretReferenceGrant(cfg, ns), objects);
    assert SHARED + "-from-" + ns == "nebari-llm-shared-tls-from-" + ns;
  }

  lemma SettledSource(render: Render, server: Server, cfg: Config, objects: Objects)
    requires TextsUnique(render, cfg) && Settled(render, server, TlsSource(cfg), objects)
    ensures var certificate := Ref(Certificate, cfg.operatorNamespace, "nebari-llm-shared-tls");
      if cfg.tlsSecretName != "" then certificate !in objects
      else Certifies(objects, certificate, "nebari-llm-shared-tls",
                     ["llm." + cfg.baseDomain, "llm-internal." + cfg.baseDomain], cfg.clusterIssuer)
  {
    if cfg.tlsSecretName == "" {
      assert cfg.clusterIssuer != "";
      CertificatePrintsApart(render, cfg);
      hide PrintsApart, TextsUnique, Settled;
      SettledSpec(render, server, CertificateRefOf(cfg), BuildSharedCertificate(cfg), objects);
    } else {
      assert CertificateRefOf(cfg) !in objects - {CertificateRefOf(cfg)};
    }
  }

  lemma PatchServes(render: Render, server: Server, cfg: Config, ref: Ref, w: Wanted, objects: Objects)
    requires Settled(render, server, PatchListener(ref, w), objects) && Tolerable(render, server, w)
    requires TextsUnique(render, cfg) && w.secret == SharedSecretName(cfg) && w.secretNamespace == cfg.operatorNamespace
    requires w.hostname in ["llm." + cfg.baseDomain, "llm-internal." + cfg.baseDomain]
    ensures Serves(render, objects, ref, w)
  {
    assert Distinctive(render, w) by {
      hide PrintsUniquely;
      assert PrintsUniquely(render, "HTTPS") && PrintsUniquely(render, "Terminate");
      assert PrintsUniquely(render, "Secret") && PrintsUniquely(render, "All");
      assert PrintsUniquely(render, SHARED) && PrintsUniquely(render, cfg.tlsSecretName);
      assert PrintsUniquely(render, cfg.operatorNamespace);
      assert PrintsUniquely(render, "llm." + cfg.baseDomain);
      assert PrintsUniquely(render, "llm-internal." + cfg.baseDomain);
    }
    hide Distinctive, TextsUnique, Settled;
    SettledPatch(render, server, ref, w, objects);
    if ref in objects { SatisfiedServes(render, objects[ref], w); }
  }

  lemma SettledSecretInPlace(render: Render, server: Server, cfg: Config, objects: Objects)
    requires cfg.baseDomain != "" && cfg.operatorNamespace != "" && TextsUnique(render, cfg)
    requires Settled(render, server, TlsSource(cfg), objects)
    requires forall ns :: ns in GatewayNamespaces(cfg) && ns != cfg.operatorNamespace ==>
      Settled(render, server, Ensure(GrantRef(cfg, ns), BuildSecretReferenceGrant(cfg, ns)), objects)
    ensures SecretInPlace(cfg, objects)
  {
    hide Permits, Certifies, BuildSecretReferenceGrant, BuildSharedCertificate, TextsUnique, TlsSource, Settled;
    forall ns | ns in [cfg.externalNamespace, cfg.internalNamespace] && ns != cfg.operatorNamespace {
      SettledGrantPermits(render, server, cfg, ns, objects);
    }
    SettledSource(render, server, cfg, objects);
  }

  /** Whatever the cluster held before, and whichever mode was in force, a pass that returns nil
      leaves each shared listener on its Gateway serving its own host with the configured mode's
      Secret, a grant for every other namespace that has a Gateway, and the Certificate for exactly
      those hosts, or none if the user brings a Secret. */
  lemma PassInstallsCurrentSecret(render: Render, server: Server, cfg: Config, objects: Objects, faults: Faults)
    requires cfg.baseDomain != "" && cfg.operatorNamespace != ""
    requires TextsUnique(render, cfg) && TolerableFor(render, server, cfg)
    requires !Pass(render, server, Steps(cfg), objects, faults, 0).failed
    ensures InPlace(render, cfg, Pass(render, server, Steps(cfg), objects, faults, 0).objects)
  {
    PassLeavesAllSettled(render, server, cfg, objects, faults);
    var after := Pass(render, server, Steps(cfg), objects, faults, 0).objects;
    StepsInclude(cfg);
    hide Steps, Pass, TextsUnique, TlsSource, SecretInPlace;
    hide Tolerable;
    SettledSecretInPlace(render, server, cfg, after);
    if cfg.manageListeners {
      PatchServes(render, server, cfg, ExternalGateway(cfg), External(cfg), after);
      PatchServes(render, server, cfg, InternalGateway(cfg), Internal(cfg), after);
    }
  }

  // ---------- what a pass changes ----------

  /** The objects that a pass may write. */
  predicate Owned(cfg: Config, ref: Ref) {
    && cfg.baseDomain != "" && cfg.operatorNamespace != ""
    && (|| ref == Ref(Certificate, cfg.operatorNamespace, "nebari-llm-shared-tls")
        || (exists ns | ns in [cfg.externalNamespace, cfg.internalNamespace] && ns != cfg.operatorNamespace ::
              ref == Ref(ReferenceGrant, cfg.operatorNamespace, "nebari-llm-shared-tls-from-" + ns))
        || (cfg.manageListeners
            && (|| ref == Ref(GatewayKind, cfg.externalNamespace, cfg.externalGateway)
                || ref == Ref(GatewayKind, cfg.internalNamespace, cfg.internalGateway))))
  }

  /** However a pass ends, it writes no other object. */
  lemma PassWritesOwnedOnly(render: Render, server: Server, cfg: Config, objects: Objects, faults: Faults, ref: Ref)
    requires !Owned(cfg, ref)
    ensures var after := Pass(render, server, Steps(cfg), objects, faults, 0).objects;
      && (ref in after <==> ref in objects)
      && (ref in objects ==> after[ref] == objects[ref])
  {
    GrantsAreFor(cfg, GatewayNamespaces(cfg));
    hide BuildSharedCertificate, BuildSecretReferenceGrant, Pass, Apply;
    forall s | s in Steps(cfg) ensures s.Refuse? || s.ref != ref {
    }
    PassTouchesNamedOnly(render, server, Steps(cfg), objects, faults, 0, ref);
  }

  /** An object that stays keeps everything but its spec; one that is new says `rest` besides it. */
  ghost predicate OnlySpecWritten(ref: Ref, rest: Fields, objects: Objects, after: Objects) {
    && (ref in objects ==> ref in after && after[ref] - {"spec"} == objects[ref] - {"spec"})
    && (ref !in objects && ref in after ==> after[ref] - {"spec"} == rest)
  }

  predicate WritesSpec(step: Step, ref: Ref, rest: Fields) {
    && (step.Ensure? && step.ref == ref ==> step.desired - {"spec"} == rest)
    && (step.PatchListener? || step.DeleteCertificate? ==> step.ref != ref)
  }

  lemma StepWritesSpec(render: Render, server: Server, step: Step, objects: Objects, ref: Ref, rest: Fields)
    requires WritesSpec(step, ref, rest) && Apply(render, server, step, objects).Some?
    ensures OnlySpecWritten(ref, rest, objects, Apply(render, server, step, objects).value)
  {
    var next := Apply(render, server, step, objects).value;
    if step.Ensure? && step.ref == ref {
      if ref in objects {
        assert objects[ref]["spec" := Map(Spec(step.desired))] - {"spec"} == objects[ref] - {"spec"};
      }
    } else if !step.Refuse? {
      OnlyItsObject(render, server, step, objects);
      hide Apply;
      assert ref in objects <==> ref in objects - {step.ref};
      assert ref in next <==> ref in next - {step.ref};
      if ref in objects { assert next[ref] == (next - {step.ref})[ref]; }
    }
  }

  lemma {:induction false} StepsWriteSpec(render: Render, server: Server, steps: seq<Step>, objects: Objects,
                                          faults: Faults, n: nat, ref: Ref, rest: Fields)
    requires forall s :: s in steps ==> WritesSpec(s, ref, rest)
    ensures OnlySpecWritten(ref, rest, objects, Pass(render, server, steps, objects, faults, n).objects)
    decreases |steps|
  {
    PassStep(render, server, steps, objects, faults, n);
    if steps != [] && !faults(n) && Apply(render, server, steps[0], objects).Some? {
      var next := Apply(render, server, steps[0], objects).value;
      StepWritesSpec(render, server, steps[0], objects, ref, rest);
      hide Apply, Pass, WritesSpec;
      StepsWriteSpec(render, server, steps[1..], next, faults, n + 1, ref, rest);
    }
  }

  /** However a pass ends, of the Certificate and the grants it writes the spec only, and one that it
      creates carries its own name and the operator's three labels. */
  lemma PassKeepsTheRest(render: Render, server: Server, cfg: Config, objects: Objects, faults: Faults, ref: Ref)
    requires ref.kind == ReferenceGrant || (ref.kind == Certificate && cfg.tlsSecretName == "")
    ensures OnlySpecWritten(ref, map["metadata" := Map(map[
              "name" := Text(ref.name), "namespace" := Text(ref.namespace),
              "labels" := Map(map["app.kubernetes.io/managed-by" := Text("nebari-llm-operator"),
                                  "app.kubernetes.io/name" := Text("shared-tls"),
                                  "app.kubernetes.io/component" := Text("routing")])])],
              objects, Pass(render, server, Steps(cfg), objects, faults, 0).objects)
  {
    var rest := map["metadata" := Metadata(ref)];
    GrantsAreFor(cfg, GatewayNamespaces(cfg));
    forall s | s in Grants(cfg, GatewayNamespaces(cfg)) ensures WritesSpec(s, ref, rest) {
      var ns :| ns in GatewayNamespaces(cfg) && s == Ensure(GrantRef(cfg, ns), BuildSecretReferenceGrant(cfg, ns));
      GrantRest(cfg, ns);
      hide BuildSecretReferenceGrant, Metadata, GrantRef;
    }
    assert WritesSpec(TlsSource(cfg), ref, rest) by {
      CertificateRest(cfg);
      hide BuildSharedCertificate, Metadata;
    }
    hide TlsSource, Grants, GatewayNamespaces, Metadata, Pass, OnlySpecWritten, External, Internal;
    StepsWriteSpec(render, server, Steps(cfg), objects, faults, 0, ref, rest);
  }

  lemma GrantRest(cfg: Config, ns: string)
    ensures BuildSecretReferenceGrant(cfg, ns) - {"spec"} == map["metadata" := Metadata(GrantRef(cfg, ns))]
  {}

  lemma CertificateRest(cfg: Config)
    ensures BuildSharedCertificate(cfg) - {"spec"} == map["metadata" := Metadata(CertificateRefOf(cfg))]
  {}

  lemma StepKeepsGateway(render: Render, server: Server, step: Step, objects: Objects, gateway: Ref)
    requires gateway.kind == GatewayKind && WellKinded(step) && Apply(render, server, step, objects).Some?
    ensures gateway in Apply(render, server, step, objects).value <==> gateway in objects
  {
    hide Merged, NestedSpecsEqual;
    var next := Apply(render, server, step, objects).value;
    if !step.Refuse? && step.ref != gateway {
      OnlyItsObject(render, server, step, objects);
      hide Apply;
      assert gateway in objects <==> gateway in objects - {step.ref};
      assert gateway in next <==> gateway in next - {step.ref};
    }
  }

  /** A pass makes no Gateway and removes none. */
  lemma {:induction false} GatewaysStand(render: Render, server: Server, steps: seq<Step>, objects: Objects,
                                         faults: Faults, n: nat, gateway: Ref)
    requires gateway.kind == GatewayKind && forall s :: s in steps ==> WellKinded(s)
    ensures gateway in Pass(render, server, steps, objects, faults, n).objects <==> gateway in objects
    decreases |steps|
  {
    PassStep(render, server, steps, objects, faults, n);
    if steps != [] && !faults(n) && Apply(render, server, steps[0], objects).Some? {
      var next := Apply(render, server, steps[0], objects).value;
      StepKeepsGateway(render, server, steps[0], objects, gateway);
      hide Apply, Pass, WellKinded;
      GatewaysStand(render, server, steps[1..], next, faults, n + 1, gateway);
    }
  }

  lemma PassKeepsGateways(render: Render, server: Server, cfg: Config, objects: Objects, faults: Faults, gateway: Ref)
    requires gateway.kind == GatewayKind
    ensures gateway in Pass(render, server, Steps(cfg), objects, faults, 0).objects <==> gateway in objects
  {
    GrantsAreFor(cfg, GatewayNamespaces(cfg));
    hide BuildSharedCertificate, BuildSecretReferenceGrant, Pass, Apply;
    GatewaysStand(render, server, Steps(cfg), objects, faults, 0, gateway);
  }

  // ---------- the order of a pass ----------

  lemma {:induction false} PassAppend(render: Render, server: Server, a: seq<Step>, b: seq<Step>, objects: Objects,
                                      faults: Faults, n: nat)
    ensures var x := Pass(render, server, a, objects, faults, n);
      Pass(render, server, a + b, objects, faults, n)
      == if x.failed then x else Pass(render, server, b, x.objects, faults, n + |a|)
    decreases |a|
  {
    PassStep(render, server, a, objects, faults, n);
    if a == [] {
      assert a + b == b;
    } else {
      PassStep(render, server, a + b, objects, faults, n);
      hide Pass, Apply;
      assert (a + b)[0] == a[0] && (a + b)[1..] == a[1..] + b;
      if !faults(n) && Apply(render, server, a[0], objects).Some? {
        PassAppend(render, server, a[1..], b, Apply(render, server, a[0], objects).value, faults, n + 1);
      }
    }
  }

  lemma PrefixIndependent(a: seq<Step>, b: seq<Step>)
    requires PairwiseIndependent(a + b)
    ensures PairwiseIndependent(a)
  {
    hide Independent;
    forall i, j | 0 <= i < j < |a| ensures Independent(a[i], a[j]) {
      assert (a + b)[i] == a[i] && (a + b)[j] == a[j];
    }
  }

  /** The steps that come before the listeners. */
  function Before(cfg: Config): seq<Step> {
    [TlsSource(cfg)] + Grants(cfg, GatewayNamespaces(cfg))
  }

  lemma BeforeExactly(cfg: Config)
    requires Active(cfg)
    ensures Steps(cfg) == Before(cfg) + Patches(cfg) && PairwiseIndependent(Before(cfg))
    ensures forall s :: s in Before(cfg) ==> !s.PatchListener? && (s.Refuse? || s.ref.kind != GatewayKind)
    ensures TlsSource(cfg) in Before(cfg)
    ensures forall ns :: ns in GatewayNamespaces(cfg) && ns != cfg.operatorNamespace ==>
      Ensure(GrantRef(cfg, ns), BuildSecretReferenceGrant(cfg, ns)) in Before(cfg)
  {
    StepsIndependent(cfg);
    PrefixIndependent(Before(cfg), Patches(cfg));
    GrantsAreFor(cfg, GatewayNamespaces(cfg));
    hide BuildSharedCertificate, BuildSecretReferenceGrant, PairwiseIndependent, GatewayNamespaces;
  }

  /** If the steps before the listeners succeed, the Secret is in place, and it stays so. */
  lemma BeforeInstalls(render: Render, server: Server, cfg: Config, objects: Objects, faults: Faults)
    requires cfg.baseDomain != "" && cfg.operatorNamespace != "" && TextsUnique(render, cfg)
    requires !Pass(render, server, Before(cfg), objects, faults, 0).failed
    ensures SecretInPlace(cfg, Pass(render, server, Before(cfg), objects, faults, 0).objects)
  {
    var middle := Pass(render, server, Before(cfg), objects, faults, 0).objects;
    BeforeExactly(cfg);
    hide Before, Pass, Settled, PairwiseIndependent, TextsUnique, SecretInPlace;
    assert [] + Before(cfg) == Before(cfg);
    PassSettles(render, server, Before(cfg), [], objects, faults, 0);
    SettledSecretInPlace(render, server, cfg, middle);
  }

  lemma PatchesKeepSecret(render: Render, server: Server, cfg: Config, objects: Objects, faults: Faults, n: nat)
    requires SecretInPlace(cfg, objects)
    ensures SecretInPlace(cfg, Pass(render, server, Patches(cfg), objects, faults, n).objects)
  {
    var after := Pass(render, server, Patches(cfg), objects, faults, n).objects;
    forall ref: Ref | ref.kind != GatewayKind
      ensures (ref in after <==> ref in objects) && (ref in objects ==> after[ref] == objects[ref]) {
      hide Pass;
      PassTouchesNamedOnly(render, server, Patches(cfg), objects, faults, n, ref);
    }
    hide Pass, Patches;
  }

  /** However a pass ends, it has changed a Gateway only if the Secret its listeners name was in place
      before: no listener is left waiting for a grant or a Certificate. */
  lemma ListenersComeLast(render: Render, server: Server, cfg: Config, objects: Objects, faults: Faults, gateway: Ref)
    requires TextsUnique(render, cfg) && gateway.kind == GatewayKind && gateway in objects
    requires var after := Pass(render, server, Steps(cfg), objects, faults, 0).objects;
      gateway !in after || after[gateway] != objects[gateway]
    ensures SecretInPlace(cfg, Pass(render, server, Steps(cfg), objects, faults, 0).objects)
  {
    hide Pass, Before, SecretInPlace, TextsUnique;
    if !Active(cfg) {
      PassStep(render, server, [], objects, faults, 0);
    } else {
      BeforeExactly(cfg);
      hide Steps;
      PassAppend(render, server, Before(cfg), Patches(cfg), objects, faults, 0);
      PassTouchesNamedOnly(render, server, Before(cfg), objects, faults, 0, gateway);
      var x := Pass(render, server, Before(cfg), objects, faults, 0);
      if !x.failed {
        BeforeInstalls(render, server, cfg, objects, faults);
        PatchesKeepSecret(render, server, cfg, x.objects, faults, |Before(cfg)|);
      }
    }
  }
}
