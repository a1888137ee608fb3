/** Who may use a model: the cached view of the models (key-manager/internal/models/watcher.go), the
    gate before a key is minted (key-manager/internal/api/handler.go), the admission webhooks that
    keep model names unique, and the group policy of the internal endpoint. */
module Access {
  import opened Wrappers
  import opened Text

  datatype Kind = LLM | Passthrough

  /** An LLMModel or PassthroughModel object; `served` is the model name or the provider's host. */
  datatype Model = Model(kind: Kind, namespace: string, name: string, served: string, public: Option<bool>,
                         groups: seq<string>)

  datatype ModelInfo = ModelInfo(name: string, namespace: string, modelName: string, public: bool, groups: seq<string>,
                                 passthrough: bool, provider: string)

  function InfoOf(m: Model): ModelInfo {
    ModelInfo(m.name, m.namespace, m.served, m.public == Some(true), m.groups, m.kind.Passthrough?,
              if m.kind.Passthrough? then m.served else "")
  }

  /** The access relation that minting, auditing and the internal endpoint share. */
  predicate Accessible(m: ModelInfo, groups: seq<string>) {
    m.public || exists g :: g in m.groups && g in groups
  }

  // ---------- the cache ----------

  function Prefix(kind: Kind): string {
    if kind.LLM? then "llmmodel/" else "passthroughmodel/"
  }

  function CacheKey(kind: Kind, namespace: string, name: string): string {
    Prefix(kind) + namespace + "/" + name
  }

  /** Object names contain no slash, so the cache key tells kind, namespace and name apart. */
  lemma CacheKeyInjective(k: Kind, ns: string, n: string, k': Kind, ns': string, n': string)
    requires '/' !in ns && '/' !in n && '/' !in ns' && '/' !in n'
    requires CacheKey(k, ns, n) == CacheKey(k', ns', n')
    ensures k == k' && ns == ns' && n == n'
  {
    assert CacheKey(k, ns, n)[0] == Prefix(k)[0] && CacheKey(k', ns', n')[0] == Prefix(k')[0];
    LastSeparator(Prefix(k) + ns, Prefix(k') + ns', n, n', '/');
    assert ns == (Prefix(k) + ns)[|Prefix(k)|..];
    assert ns' == (Prefix(k) + ns')[|Prefix(k)|..];
  }

  class Watcher {
    var models: map<string, ModelInfo>

    constructor ()
      ensures models == map[]
    {
      models := map[];
    }

    /** Replaces the cache by the two listings; if either fails the old cache stays. */
    method Sync(llms: Option<seq<Model>>, passthroughs: Option<seq<Model>>) returns (failed: bool)
      modifies this
      ensures failed <==> llms.None? || passthroughs.None?
      ensures models == if failed then old(models) else CacheOf(llms.value + passthroughs.value)
    {
      hide CacheOf, CacheKey, InfoOf;
      if llms.None? { return true; }
      if passthroughs.None? { return true; }
      ghost var all := llms.value + passthroughs.value;
      CacheOfNone(all);
      var updated: map<string, ModelInfo> := map[];
      for i := 0 to |llms.value|
        invariant updated == CacheOf(all[..i])
      {
        var m := llms.value[i];
        updated := updated[CacheKey(m.kind, m.namespace, m.name) := InfoOf(m)];
        CacheOfNext(all, i);
      }
      for i := 0 to |passthroughs.value|
        invariant updated == CacheOf(all[..|llms.value| + i])
      {
        var m := passthroughs.value[i];
        updated := updated[CacheKey(m.kind, m.namespace, m.name) := InfoOf(m)];
        CacheOfNext(all, |llms.value| + i);
      }
      assert all[..|all|] == all;
      models := updated;
      return false;
    }

    /** The cached models the groups give access to, each once, in an order that is not fixed. */
    method FilterModelsForUser(groups: seq<string>) returns (result: seq<ModelInfo>)
      ensures ShowsAccessible(models, groups, result)
    {
      result := [];
      ghost var keys: seq<string> := [];
      var rest := models.Keys;
      while rest != {}
        invariant rest <= models.Keys
        invariant Listed(models, keys, result)
        invariant forall k :: k in keys <==> k in models && k !in rest && Accessible(models[k], groups)
        decreases |rest|
      {
        var key :| key in rest;
        rest := rest - {key};
        var m := models[key];
        if m.public {
          result, keys := result + [m], keys + [key];
          continue;
        }
        for i := 0 to |m.groups|
          invariant forall j :: 0 <= j < i ==> m.groups[j] !in groups
        {
          if m.groups[i] in groups {
            result, keys := result + [m], keys + [key];
            break;
          }
        }
      }
    }

    method ListModels() returns (result: seq<ModelInfo>)
      ensures ShowsAll(models, result)
    {
      result := [];
      ghost var keys: seq<string> := [];
      var rest := models.Keys;
      while rest != {}
        invariant rest <= models.Keys
        invariant Listed(models, keys, result)
        invariant forall k :: k in keys <==> k in models && k !in rest
        decreases |rest|
      {
        var key :| key in rest;
        rest := rest - {key};
        result, keys := result + [models[key]], keys + [key];
      }
    }

    /** The check at the head of the create handler. */
    method HasAccess(groups: seq<string>, modelName: string) returns (allowed: bool)
      ensures allowed <==> MayMint(models, groups, modelName)
    {
      var accessible := FilterModelsForUser(groups);
      hide ShowsAccessible;
      GateOnListing(models, groups, accessible, modelName);
      for i := 0 to |accessible|
        invariant forall j :: 0 <= j < i ==> accessible[j].name != modelName
      {
        if accessible[i].name == modelName { return true; }
      }
      return false;
    }
  }

  /** `result` shows the entries under `keys`, which are distinct. */
  ghost predicate Listed(models: map<string, ModelInfo>, keys: seq<string>, result: seq<ModelInfo>) {
    && |keys| == |result|
    && (forall i | 0 <= i < |keys| :: keys[i] in models && models[keys[i]] == result[i])
    && forall i, j | 0 <= i < j < |keys| :: keys[i] != keys[j]
  }

  /** `result` shows every entry once. */
  ghost predicate ShowsAll(models: map<string, ModelInfo>, result: seq<ModelInfo>) {
    exists keys :: Listed(models, keys, result) && forall k :: k in keys <==> k in models
  }

  /** `result` shows exactly the entries the groups give access to, each once. */
  ghost predicate ShowsAccessible(models: map<string, ModelInfo>, groups: seq<string>, result: seq<ModelInfo>) {
    exists keys :: && Listed(models, keys, result)
                   && forall k :: k in keys <==> (k in models && Accessible(models[k], groups))
  }

  lemma GateOnListing(models: map<string, ModelInfo>, groups: seq<string>, result: seq<ModelInfo>, name: string)
    requires ShowsAccessible(models, groups, result)
    ensures MayMint(models, groups, name) <==> exists i :: 0 <= i < |result| && result[i].name == name
  {
    var keys :| Listed(models, keys, result) && forall k :: k in keys <==> k in models && Accessible(models[k], groups);
    hide Accessible;
    if MayMint(models, groups, name) {
      var k :| k in models && models[k].name == name && Accessible(models[k], groups);
      var i :| 0 <= i < |keys| && keys[i] == k;
      assert result[i].name == name;
    }
    if exists i :: 0 <= i < |result| && result[i].name == name {
      var i :| 0 <= i < |result| && result[i].name == name;
      assert keys[i] in keys;
    }
  }

  /** Later entries win. */
  function CacheOf(listed: seq<Model>): map<string, ModelInfo> {
    if listed == [] then map[]
    else
      var m := listed[|listed| - 1];
      CacheOf(listed[..|listed| - 1])[CacheKey(m.kind, m.namespace, m.name) := InfoOf(m)]
  }

  lemma CacheOfNone(listed: seq<Model>)
    ensures CacheOf(listed[..0]) == map[]
  {}

  lemma CacheOfNext(listed: seq<Model>, i: nat)
    requires i < |listed|
    ensures var m := listed[i];
      CacheOf(listed[..i + 1]) == CacheOf(listed[..i])[CacheKey(m.kind, m.namespace, m.name) := InfoOf(m)]
  {
    assert listed[..i + 1][..i] == listed[..i];
  }

  ghost predicate WellNamed(listed: seq<Model>) {
    && (forall m | m in listed :: '/' !in m.namespace && '/' !in m.name)
    && forall i, j | 0 <= i < j < |listed| ::
         (listed[i].kind, listed[i].namespace, listed[i].name) != (listed[j].kind, listed[j].namespace, listed[j].name)
  }

  /** No listed model evicts another: the cache has exactly one entry for each, of either kind. */
  lemma {:induction false} CacheExact(listed: seq<Model>)
    requires WellNamed(listed)
    ensures forall m :: m in listed ==>
      && CacheKey(m.kind, m.namespace, m.name) in CacheOf(listed)
      && CacheOf(listed)[CacheKey(m.kind, m.namespace, m.name)] == InfoOf(m)
    ensures forall k :: k in CacheOf(listed) ==> exists m :: m in listed && k == CacheKey(m.kind, m.namespace, m.name)
    ensures |CacheOf(listed)| == |listed|
  {
    hide CacheKey;
    if listed != [] {
      var front, last := listed[..|listed| - 1], listed[|listed| - 1];
      assert listed == front + [last];
      CacheExact(front);
      forall m | m in front
        ensures CacheKey(m.kind, m.namespace, m.name) != CacheKey(last.kind, last.namespace, last.name) {
        if CacheKey(m.kind, m.namespace, m.name) == CacheKey(last.kind, last.namespace, last.name) {
          CacheKeyInjective(m.kind, m.namespace, m.name, last.kind, last.namespace, last.name);
        }
      }
      assert CacheKey(last.kind, last.namespace, last.name) !in CacheOf(front);
    }
  }

  /** What the cache shows of a listed object, under which key. */
  lemma CacheShows(listed: seq<Model>, m: Model)
    requires WellNamed(listed) && m in listed
    ensures var key := (if m.kind.LLM? then "llmmodel/" else "passthroughmodel/") + m.namespace + "/" + m.name;
      && key in CacheOf(listed)
      && var e := CacheOf(listed)[key];
         && e.name == m.name && e.namespace == m.namespace && e.modelName == m.served && e.groups == m.groups
         && (e.public <==> m.public == Some(true))
         && (e.passthrough <==> m.kind.Passthrough?) && e.provider == (if m.kind.LLM? then "" else m.served)
  {
    CacheExact(listed);
    assert CacheKey(m.kind, m.namespace, m.name)
        == (if m.kind.LLM? then "llmmodel/" else "passthroughmodel/") + m.namespace + "/" + m.name;
  }

  // ---------- the mint gate ----------

  /** The gate looks for the name among the accessible models. */
  ghost predicate MayMint(models: map<string, ModelInfo>, groups: seq<string>, name: string) {
    exists k :: k in models && models[k].name == name && Accessible(models[k], groups)
  }

  /** The object itself says it is open to a user in these groups: `spec.access.public` is set and
      true, or it lists one of the groups. */
  predicate OpenTo(m: Model, groups: seq<string>) {
    m.public == Some(true) || exists g :: g in m.groups && g in groups
  }

  ghost predicate SomeOpen(listed: seq<Model>, groups: seq<string>, name: string) {
    exists m :: m in listed && m.name == name && OpenTo(m, groups)
  }

  /** The gate, in terms of the objects that were listed. */
  lemma GateOnModels(listed: seq<Model>, groups: seq<string>, name: string)
    requires WellNamed(listed)
    ensures MayMint(CacheOf(listed), groups, name) <==> SomeOpen(listed, groups, name)
  {
    CacheExact(listed);
    hide CacheOf, CacheKey, WellNamed;
    var models := CacheOf(listed);
    if k :| k in models && models[k].name == name && Accessible(models[k], groups) {
      var m :| m in listed && k == CacheKey(m.kind, m.namespace, m.name);
      assert models[k] == InfoOf(m) && OpenTo(m, groups);
    }
    if m :| m in listed && m.name == name && OpenTo(m, groups) {
      var k := CacheKey(m.kind, m.namespace, m.name);
      assert models[k] == InfoOf(m) && Accessible(models[k], groups);
    }
  }

  /** After a synchronisation with two listings the gate lets a user mint for a name exactly if some
      listed object of that name is open to one of the user's groups. */
  method SyncThenAsk(w: Watcher, llms: seq<Model>, passthroughs: seq<Model>, groups: seq<string>, name: string)
      returns (allowed: bool)
    requires WellNamed(llms + passthroughs)
    modifies w
    ensures allowed <==> SomeOpen(llms + passthroughs, groups, name)
  {
    hide CacheOf, MayMint, SomeOpen, WellNamed;
    var failed := w.Sync(Some(llms), Some(passthroughs));
    GateOnModels(llms + passthroughs, groups, name);
    allowed := w.HasAccess(groups, name);
  }

  ghost predicate NamesUnique(models: map<string, ModelInfo>) {
    forall k, l | k in models && l in models && models[k].name == models[l].name :: k == l
  }

  lemma GateForUniqueName(models: map<string, ModelInfo>, k: string, groups: seq<string>)
    requires NamesUnique(models) && k in models
    ensures MayMint(models, groups, models[k].name) <==> Accessible(models[k], groups)
  {}

  ghost predicate GateFaithful(models: map<string, ModelInfo>, k: string)
    requires k in models
  {
    forall groups :: MayMint(models, groups, models[k].name) <==> Accessible(models[k], groups)
  }

  /** Every model of this name is at most as open as model `k`. */
  predicate NoMoreOpen(models: map<string, ModelInfo>, k: string)
    requires k in models
  {
    models[k].public || forall l | l in models && models[l].name == models[k].name ::
      !models[l].public && forall g | g in models[l].groups :: g in models[k].groups
  }

  /** Where names are shared, the gate is the access relation of a model exactly when no namesake is
      more open than it. */
  lemma GateFaithfulExactly(models: map<string, ModelInfo>, k: string)
    requires k in models
    ensures GateFaithful(models, k) <==> NoMoreOpen(models, k)
  {
    if GateFaithful(models, k) && !models[k].public {
      forall l | l in models && models[l].name == models[k].name
        ensures !models[l].public && forall g | g in models[l].groups :: g in models[k].groups {
        assert !Accessible(models[k], []);
        assert !MayMint(models, [], models[k].name);
        forall g | g in models[l].groups ensures g in models[k].groups {
          assert Accessible(models[l], [g]);
          assert MayMint(models, [g], models[k].name);
        }
      }
    }
  }

  // ---------- admission ----------

  /** The models that exist, by kind: namespace and name. */
  datatype Registry = Registry(llms: set<(string, string)>, passthroughs: set<(string, string)>)

  datatype Change =
    | Create(kind: Kind, namespace: string, name: string)
    | Update(kind: Kind, namespace: string, name: string)
    | Delete(kind: Kind, namespace: string, name: string)

  function OfKind(r: Registry, kind: Kind): set<(string, string)> {
    if kind.LLM? then r.llms else r.passthroughs
  }

  function Other(kind: Kind): Kind {
    if kind.LLM? then Passthrough else LLM
  }

  predicate ValidateOperatorNamespace(operatorNamespace: string, namespace: string) {
    operatorNamespace == "" || namespace == operatorNamespace
  }

  predicate ValidateNoNameCollision(r: Registry, kind: Kind, namespace: string, name: string) {
    (namespace, name) !in OfKind(r, Other(kind))
  }

  /** What the webhooks admit, on top of the API server's own rule that a name is taken once. */
  predicate Admitted(operatorNamespace: string, r: Registry, c: Change) {
    match c
    case Create(kind, ns, n) =>
      && (ns, n) !in OfKind(r, kind)
      && ValidateOperatorNamespace(operatorNamespace, ns) && ValidateNoNameCollision(r, kind, ns, n)
    case Update(kind, ns, n) =>
      && (ns, n) in OfKind(r, kind)
      && ValidateOperatorNamespace(operatorNamespace, ns) && ValidateNoNameCollision(r, kind, ns, n)
    case Delete(kind, ns, n) => (ns, n) in OfKind(r, kind)
  }

  function Changed(r: Registry, c: Change): Registry {
    match c
    case Create(LLM, ns, n) => r.(llms := r.llms + {(ns, n)})
    case Create(Passthrough, ns, n) => r.(passthroughs := r.passthroughs + {(ns, n)})
    case Update(_, _, _) => r
    case Delete(LLM, ns, n) => r.(llms := r.llms - {(ns, n)})
    case Delete(Passthrough, ns, n) => r.(passthroughs := r.passthroughs - {(ns, n)})
  }

  function After(operatorNamespace: string, changes: seq<Change>): Registry {
    if changes == [] then Registry({}, {})
    else
      var r := After(operatorNamespace, changes[..|changes| - 1]);
      var c := changes[|changes| - 1];
      if Admitted(operatorNamespace, r, c) then Changed(r, c) else r
  }

  lemma AfterLast(operatorNamespace: string, changes: seq<Change>, c: Change)
    ensures var r := After(operatorNamespace, changes);
      After(operatorNamespace, changes + [c]) == if Admitted(operatorNamespace, r, c) then Changed(r, c) else r
  {
    assert (changes + [c])[..|changes|] == changes;
  }

  /** Over all histories: a Create stores the model exactly if no model of either kind has its
      namespace and name and the namespace is the operator's, as far as that is known; an Update
      changes no name, and a Delete takes the model away. */
  lemma RequestExactly(operatorNamespace: string, changes: seq<Change>, ns: string, n: string)
    ensures var r := After(operatorNamespace, changes);
      var free := (ns, n) !in r.llms && (ns, n) !in r.passthroughs
                  && (operatorNamespace != "" ==> ns == operatorNamespace);
      && After(operatorNamespace, changes + [Create(LLM, ns, n)])
         == (if free then Registry(r.llms + {(ns, n)}, r.passthroughs) else r)
      && After(operatorNamespace, changes + [Create(Passthrough, ns, n)])
         == (if free then Registry(r.llms, r.passthroughs + {(ns, n)}) else r)
      && After(operatorNamespace, changes + [Update(LLM, ns, n)]) == r
      && After(operatorNamespace, changes + [Update(Passthrough, ns, n)]) == r
      && After(operatorNamespace, changes + [Delete(LLM, ns, n)]) == Registry(r.llms - {(ns, n)}, r.passthroughs)
      && After(operatorNamespace, changes + [Delete(Passthrough, ns, n)])
         == Registry(r.llms, r.passthroughs - {(ns, n)})
  {
    hide After;
    AfterLast(operatorNamespace, changes, Create(LLM, ns, n));
    AfterLast(operatorNamespace, changes, Create(Passthrough, ns, n));
    AfterLast(operatorNamespace, changes, Update(LLM, ns, n));
    AfterLast(operatorNamespace, changes, Update(Passthrough, ns, n));
    AfterLast(operatorNamespace, changes, Delete(LLM, ns, n));
    AfterLast(operatorNamespace, changes, Delete(Passthrough, ns, n));
  }

  /** No model is locked out: whatever was admitted before, an Update or a Delete of one that exists
      is admitted too, and one of any other name is not. */
  lemma ExistingMayChange(operatorNamespace: string, changes: seq<Change>, kind: Kind, ns: string, n: string)
    ensures var r := After(operatorNamespace, changes);
      var exists_ := (ns, n) in if kind.LLM? then r.llms else r.passthroughs;
      && (Admitted(operatorNamespace, r, Update(kind, ns, n)) <==> exists_)
      && (Admitted(operatorNamespace, r, Delete(kind, ns, n)) <==> exists_)
  {
    AdmissionKeeps(operatorNamespace, changes);
    hide After;
    var r := After(operatorNamespace, changes);
    assert (ns, n) in r.llms + r.passthroughs <==> (ns, n) in r.llms || (ns, n) in r.passthroughs;
  }

  ghost predicate OneModelPerName(r: Registry) {
    && (forall x, y | x in r.llms + r.passthroughs && y in r.llms + r.passthroughs && x.1 == y.1 :: x == y)
    && r.llms !! r.passthroughs
  }

  ghost predicate AllIn(r: Registry, namespace: string) {
    forall x | x in r.llms + r.passthroughs :: x.0 == namespace
  }

  lemma {:induction false} AdmissionKeeps(operatorNamespace: string, changes: seq<Change>)
    ensures After(operatorNamespace, changes).llms !! After(operatorNamespace, changes).passthroughs
    ensures operatorNamespace != "" ==> AllIn(After(operatorNamespace, changes), operatorNamespace)
  {
    if changes != [] {
      AdmissionKeeps(operatorNamespace, changes[..|changes| - 1]);
    }
  }

  /** Over all histories of requests, a name belongs to one model of either kind exactly when the
      webhooks know the operator's namespace. */
  lemma NamesUniqueExactly(operatorNamespace: string)
    ensures operatorNamespace != "" <==> forall changes :: OneModelPerName(After(operatorNamespace, changes))
  {
    if operatorNamespace != "" {
      forall changes ensures OneModelPerName(After(operatorNamespace, changes)) {
        AdmissionKeeps(operatorNamespace, changes);
      }
    } else {
      SameNameTwice();
    }
  }

  /** Without it the same name is admitted in two namespaces. */
  lemma SameNameTwice()
    ensures !OneModelPerName(After("", [Create(LLM, "a", "m"), Create(Passthrough, "b", "m")]))
  {
    var changes := [Create(LLM, "a", "m"), Create(Passthrough, "b", "m")];
    assert changes[..1] == [changes[0]] && changes[..1][..0] == [];
    var r := After("", changes[..1]);
    assert After("", []) == Registry({}, {});
    assert r == Changed(Registry({}, {}), changes[0]);
    assert r == Registry({("a", "m")}, {});
    assert After("", changes[..2][..1]) == r && changes[..2] == changes;
    assert ("a", "m") in After("", changes).llms && ("b", "m") in After("", changes).passthroughs;
  }

  /** The cache of the models in such a registry has unique names. */
  lemma RegistryGivesUniqueNames(r: Registry, listed: seq<Model>)
    requires OneModelPerName(r) && WellNamed(listed)
    requires forall m :: m in listed ==> (m.namespace, m.name) in OfKind(r, m.kind)
    ensures NamesUnique(CacheOf(listed))
  {
    CacheExact(listed);
    hide CacheOf, CacheKey;
    var models := CacheOf(listed);
    forall k, l | k in models && l in models && models[k].name == models[l].name ensures k == l {
      var m :| m in listed && k == CacheKey(m.kind, m.namespace, m.name);
      var n :| n in listed && l == CacheKey(n.kind, n.namespace, n.name);
      SameName(r, m, n);
    }
  }

  lemma SameName(r: Registry, m: Model, n: Model)
    requires OneModelPerName(r) && m.name == n.name
    requires (m.namespace, m.name) in OfKind(r, m.kind) && (n.namespace, n.name) in OfKind(r, n.kind)
    ensures m.kind == n.kind && m.namespace == n.namespace
  {
    assert (m.namespace, m.name) in r.llms + r.passthroughs && (n.namespace, n.name) in r.llms + r.passthroughs;
  }

  // ---------- the internal endpoint ----------

  /** An optional rule over a token's groups claim; every other request is denied. */
  datatype JwtPolicy = AnyValidToken | AllowGroups(values: seq<string>)

  method BuildJWTPolicy(public: bool, groups: seq<string>) returns (p: JwtPolicy)
    ensures forall claim :: Permits(p, claim) <==> public || exists g :: g in groups && g in claim
  {
    if public { return AnyValidToken; }
    var values: seq<string> := [];
    for i := 0 to |groups|
      invariant values == groups[..i]
    {
      values := values + [groups[i]];
    }
    return AllowGroups(values);
  }

  predicate Permits(p: JwtPolicy, claim: seq<string>) {
    p.AnyValidToken? || exists g :: g in p.values && g in claim
  }
}
