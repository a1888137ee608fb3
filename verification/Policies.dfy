/** The external SecurityPolicy of a model and what the gateway makes of it
    (operator/internal/controller/apikeys.go, operator/internal/controller/reconcilers/auth.go).

    Every model's policy pools the keys of ALL models for authentication and then allows only the
    model's own client IDs.  That this isolates the models rests on the ledger. */
module Policies {
  import opened Wrappers
  import opened Text
  import opened Ledger
  import opened LedgerRuns

  const SECRET_SUFFIX: string := "-api-keys"

  function APIKeySecretName(model: string): string {
    model + SECRET_SUFFIX
  }

  predicate HasSuffix(name: string, suffix: string) {
    |suffix| <= |name| && name[|name| - |suffix|..] == suffix
  }

  /** A Secret as the operator sees it; `managed` is the managed-by label it filters on. */
  datatype KeySecret = KeySecret(keys: map<string, ApiKey>, managed: bool)

  /** The Secrets of the operator's namespace, by name. */
  type Secrets = map<string, KeySecret>

  function KeysIn(secrets: Secrets, name: string): map<string, ApiKey> {
    if name in secrets then secrets[name].keys else map[]
  }

  // ---------- what a policy is rendered from ----------

  function OwnIds(secrets: Secrets, model: string): set<string> {
    KeysIn(secrets, APIKeySecretName(model)).Keys
  }

  predicate Pooled(secrets: Secrets, name: string) {
    name in secrets && secrets[name].managed && HasSuffix(name, SECRET_SUFFIX)
  }

  function PooledNames(secrets: Secrets, model: string): set<string> {
    {APIKeySecretName(model)} + set n | n in secrets && Pooled(secrets, n)
  }

  /** apiKeyClientIDs with ClientIDsFromSecret: a missing Secret has no client IDs. */
  method ApiKeyClientIDs(secrets: Secrets, model: string) returns (ids: seq<string>)
    ensures Increasing(ids) && Elements(ids) == OwnIds(secrets, model)
  {
    if APIKeySecretName(model) !in secrets { return []; }
    ids := SortStrings(secrets[APIKeySecretName(model)].keys.Keys);
  }

  /** apiKeySecretNamesWith: the own name is there whether or not the Secret is. */
  method ApiKeySecretNamesWith(secrets: Secrets, ownName: string) returns (names: seq<string>)
    ensures Increasing(names)
    ensures Elements(names) == {ownName} + set n | n in secrets && Pooled(secrets, n)
  {
    var found := {ownName};
    var rest := secrets.Keys;
    while rest != {}
      invariant rest <= secrets.Keys
      invariant found == {ownName} + set n | n in secrets.Keys - rest && Pooled(secrets, n)
      decreases |rest|
    {
      var n :| n in rest;
      rest := rest - {n};
      if secrets[n].managed && HasSuffix(n, SECRET_SUFFIX) {
        found := found + {n};
      }
    }
    names := SortStrings(found);
  }

  // ---------- policies ----------

  /** Deny by default; with client IDs there is one rule that allows them. */
  datatype Authorization = DenyAll | AllowClients(ids: seq<string>)

  datatype Policy = Policy(credentialRefs: seq<string>, authorization: Authorization)

  function BuildAPIKeyAuthorization(clientIds: seq<string>): Authorization {
    if clientIds == [] then DenyAll else AllowClients(clientIds)
  }

  function Allowed(a: Authorization): set<string> {
    if a.DenyAll? then {} else Elements(a.ids)
  }

  /** The policy lists, in order and once each, the given Secrets and the given client IDs, and
      has no rule at all rather than an empty one. */
  ghost predicate RenderedFrom(p: Policy, ids: set<string>, names: set<string>) {
    && Increasing(p.credentialRefs) && Elements(p.credentialRefs) == names
    && Allowed(p.authorization) == ids
    && (p.authorization.AllowClients? ==> p.authorization.ids != [] && Increasing(p.authorization.ids))
  }

  ghost predicate IsRendering(p: Policy, secrets: Secrets, model: string) {
    RenderedFrom(p, OwnIds(secrets, model), PooledNames(secrets, model))
  }

  lemma SuffixExactly(name: string, suffix: string)
    ensures HasSuffix(name, suffix) <==> exists stem: string :: name == stem + suffix
  {
    if HasSuffix(name, suffix) {
      assert name == name[..|name| - |suffix|] + suffix;
    }
  }

  /** A policy authenticates with the model's own Secret and with every labelled Secret named
      "...-api-keys", and with no other; it allows the clients of the model's own Secret. */
  lemma RenderingNames(p: Policy, secrets: Secrets, model: string)
    requires IsRendering(p, secrets, model)
    ensures forall n :: n in p.credentialRefs <==>
      || n == model + "-api-keys"
      || (n in secrets && secrets[n].managed && exists stem: string :: n == stem + "-api-keys")
    ensures forall id :: id in Allowed(p.authorization) <==>
      model + "-api-keys" in secrets && id in secrets[model + "-api-keys"].keys
    ensures p.authorization == DenyAll <==>
      (model + "-api-keys" in secrets ==> secrets[model + "-api-keys"].keys == map[])
  {
    forall n ensures n in p.credentialRefs <==> n in PooledNames(secrets, model) {
      assert n in Elements(p.credentialRefs) <==> n in p.credentialRefs;
    }
    forall n { SuffixExactly(n, "-api-keys"); }
    RuleIffClients(p, OwnIds(secrets, model), PooledNames(secrets, model));
    assert KeysIn(secrets, model + "-api-keys").Keys == {} <==> KeysIn(secrets, model + "-api-keys") == map[];
  }

  method RenderPolicy(secrets: Secrets, model: string) returns (p: Policy)
    ensures IsRendering(p, secrets, model)
  {
    var ids := ApiKeyClientIDs(secrets, model);
    var names := ApiKeySecretNamesWith(secrets, APIKeySecretName(model));
    p := Policy(names, BuildAPIKeyAuthorization(ids));
    assert ids == [] ==> OwnIds(secrets, model) == {};
  }

  /** Rendering depends on nothing but the model's own client IDs and the pooled names: the order
      in which maps and lists come back from the API server does not show. */
  lemma RenderingDeterministic(p: Policy, q: Policy, ids: set<string>, names: set<string>)
    requires RenderedFrom(p, ids, names) && RenderedFrom(q, ids, names)
    ensures p == q
  {
    IncreasingUnique(p.credentialRefs, q.credentialRefs);
    RuleIffClients(p, ids, names);
    RuleIffClients(q, ids, names);
    if p.authorization.AllowClients? {
      IncreasingUnique(p.authorization.ids, q.authorization.ids);
    }
  }

  lemma RuleIffClients(p: Policy, ids: set<string>, names: set<string>)
    requires RenderedFrom(p, ids, names)
    ensures p.authorization.AllowClients? <==> ids != {}
  {
    if p.authorization.AllowClients? {
      assert p.authorization.ids[0] in Allowed(p.authorization);
    }
  }

  // ---------- the gateway ----------

  /** The credentials a policy authenticates with.  The first Secret that has a client ID decides
      which key goes with it. */
  function Pool(refs: seq<string>, secrets: Secrets): map<string, ApiKey> {
    if refs == [] then map[] else Pool(refs[1..], secrets) + KeysIn(secrets, refs[0])
  }

  /** A request with `key` authenticates as `id`, which is forwarded in the client-ID header. */
  predicate Authenticates(p: Policy, secrets: Secrets, key: ApiKey, id: string) {
    var pool := Pool(p.credentialRefs, secrets);
    id in pool && pool[id] == key
  }

  ghost predicate Admits(p: Policy, secrets: Secrets, key: ApiKey) {
    exists id :: Authenticates(p, secrets, key, id) && id in Allowed(p.authorization)
  }

  /** `name` is the first of the increasing list that has `id`. */
  ghost predicate FirstHolder(refs: seq<string>, secrets: Secrets, id: string, name: string) {
    && name in refs && id in KeysIn(secrets, name)
    && forall n :: n in refs && Before(n, name) ==> id !in KeysIn(secrets, n)
  }

  lemma {:induction false} PoolTakesFirst(refs: seq<string>, secrets: Secrets, id: string, name: string)
    requires Increasing(refs) && FirstHolder(refs, secrets, id, name)
    ensures id in Pool(refs, secrets) && Pool(refs, secrets)[id] == KeysIn(secrets, name)[id]
  {
    if refs[0] != name {
      TailElements(refs);
      var i :| 0 <= i < |refs| && refs[i] == name;
      assert Before(refs[0], name);
      assert name == refs[1..][i - 1];
      PoolTakesFirst(refs[1..], secrets, id, name);
    }
  }

  lemma {:induction false} PoolHasFirstHolder(refs: seq<string>, secrets: Secrets, id: string) returns (name: string)
    requires Increasing(refs) && exists n :: n in refs && id in KeysIn(secrets, n)
    ensures FirstHolder(refs, secrets, id, name)
  {
    var n :| n in refs && id in KeysIn(secrets, n);
    if id in KeysIn(secrets, refs[0]) {
      name := refs[0];
      forall n | n in refs ensures !Before(n, name) {
        var j :| 0 <= j < |refs| && refs[j] == n;
        BeforeIrreflexive(name);
        if j > 0 && Before(n, name) { BeforeTransitive(name, n, name); }
      }
    } else {
      var i :| 0 <= i < |refs| && refs[i] == n;
      assert n == refs[1..][i - 1];
      TailElements(refs);
      name := PoolHasFirstHolder(refs[1..], secrets, id);
      assert name in refs;
      forall n | n in refs && Before(n, name) ensures id !in KeysIn(secrets, n) {
        if n != refs[0] {
          var j :| 0 <= j < |refs| && refs[j] == n;
          assert n == refs[1..][j - 1];
        }
      }
    }
  }

  // ---------- isolation ----------

  /** No key value stands in two places of the pooled Secrets. */
  ghost predicate DistinctKeys(secrets: Secrets) {
    forall n, i, n', i' ::
      i in KeysIn(secrets, n) && i' in KeysIn(secrets, n') && KeysIn(secrets, n)[i] == KeysIn(secrets, n')[i'] ==>
        n == n' && i == i'
  }

  ghost predicate Isolated(p: Policy, secrets: Secrets, model: string) {
    forall key :: Admits(p, secrets, key) <==> key in KeysIn(secrets, APIKeySecretName(model)).Values
  }

  /** No pooled Secret with an earlier name has one of the model's client IDs. */
  ghost predicate OwnIdsComeFirst(secrets: Secrets, model: string) {
    forall n, id ::
      n in PooledNames(secrets, model) && Before(n, APIKeySecretName(model)) && id in OwnIds(secrets, model) ==>
        id !in KeysIn(secrets, n)
  }

  /** For any Secrets whatever, with distinct key values: the policy admits exactly the model's
      own keys if and only if no Secret sorting before the model's repeats one of its IDs. */
  lemma IsolationExactly(p: Policy, secrets: Secrets, model: string)
    requires IsRendering(p, secrets, model) && DistinctKeys(secrets)
    ensures Isolated(p, secrets, model) <==> OwnIdsComeFirst(secrets, model)
  {
    if OwnIdsComeFirst(secrets, model) {
      OwnFirstIsolates(p, secrets, model);
    }
    if Isolated(p, secrets, model) {
      IsolatedMeansOwnFirst(p, secrets, model);
    }
  }

  lemma OwnFirstHolds(p: Policy, secrets: Secrets, model: string, id: string)
    requires IsRendering(p, secrets, model)
    requires OwnIdsComeFirst(secrets, model) && id in OwnIds(secrets, model)
    ensures Authenticates(p, secrets, KeysIn(secrets, APIKeySecretName(model))[id], id)
  {
    var own := APIKeySecretName(model);
    assert own in Elements(p.credentialRefs);
    forall n | n in p.credentialRefs && Before(n, own) ensures id !in KeysIn(secrets, n) {
      assert n in Elements(p.credentialRefs);
    }
    PoolTakesFirst(p.credentialRefs, secrets, id, own);
  }

  lemma OwnFirstIsolates(p: Policy, secrets: Secrets, model: string)
    requires IsRendering(p, secrets, model)
    requires OwnIdsComeFirst(secrets, model)
    ensures Isolated(p, secrets, model)
  {
    var own := KeysIn(secrets, APIKeySecretName(model));
    forall key ensures Admits(p, secrets, key) <==> key in own.Values {
      if Admits(p, secrets, key) {
        var id :| Authenticates(p, secrets, key, id) && id in Allowed(p.authorization);
        OwnFirstHolds(p, secrets, model, id);
        assert own[id] == key;
      }
      if key in own.Values {
        var id :| id in own && own[id] == key;
        OwnFirstHolds(p, secrets, model, id);
      }
    }
  }

  lemma IsolatedMeansOwnFirst(p: Policy, secrets: Secrets, model: string)
    requires IsRendering(p, secrets, model) && DistinctKeys(secrets)
    requires Isolated(p, secrets, model)
    ensures OwnIdsComeFirst(secrets, model)
  {
    var own := APIKeySecretName(model);
    forall n, id | n in PooledNames(secrets, model) && Before(n, own) && id in OwnIds(secrets, model)
      ensures id !in KeysIn(secrets, n)
    {
      if id in KeysIn(secrets, n) {
        assert n in p.credentialRefs by { assert n in Elements(p.credentialRefs); }
        var first := PoolHasFirstHolder(p.credentialRefs, secrets, id);
        PoolTakesFirst(p.credentialRefs, secrets, id, first);
        var key := KeysIn(secrets, first)[id];
        assert Admits(p, secrets, key) by { assert Authenticates(p, secrets, key, id); }
        BeforeIrreflexive(own);
      }
    }
  }

  /** The model whose Secret would have this name. */
  function ModelOfSecret(name: string): string
    requires HasSuffix(name, SECRET_SUFFIX)
  {
    name[..|name| - |SECRET_SUFFIX|]
  }

  /** `secrets` shows the ledger's state as far as the policy of `model` can see: its own Secret and
      the pooled ones.  Other Secrets, whatever their names, may hold anything. */
  ghost predicate Shows(secrets: Secrets, k: Cluster, model: string) {
    && KeysIn(secrets, APIKeySecretName(model)) == Credentials(k, model)
    && forall n | n in secrets && Pooled(secrets, n) :: KeysIn(secrets, n) == Credentials(k, ModelOfSecret(n))
  }

  lemma PooledIsAModels(secrets: Secrets, name: string)
    requires Pooled(secrets, name)
    ensures name == APIKeySecretName(ModelOfSecret(name))
  {}

  /** Isolation.  At every moment of every run of the ledger, with a policy rendered from the
      Secrets of that moment, a key is admitted on a model's external route if and only if it is
      one of the model's own, although every model's Secret is pooled for authentication. */
  lemma RoutesIsolated(env: Env, ws: seq<World>, acts: seq<Action>, i: nat, secrets: Secrets, model: string, p: Policy)
    requires ValidEnv(env) && IsRun(env, ws, acts) && i < |ws|
    requires Shows(secrets, ws[i].cluster, model) && IsRendering(p, secrets, model)
    ensures forall key :: Admits(p, secrets, key) <==> key in Credentials(ws[i].cluster, model).Values
  {
    hide Inv, Next, Enabled;
    var w := ws[i];
    InvAlways(env, ws, acts, i);
    var own := APIKeySecretName(model);
    forall n, id | n in PooledNames(secrets, model) && Before(n, own) && id in OwnIds(secrets, model)
      ensures id !in KeysIn(secrets, n)
    {
      BeforeIrreflexive(own);
      if id in KeysIn(secrets, n) {
        PooledIsAModels(secrets, n);
        IdentifiersGloballyUnique(env, w, model, ModelOfSecret(n), id);
      }
    }
    OwnFirstIsolates(p, secrets, model);
  }

  /** Moreover the forwarded client ID is the one the key was minted under, so it names the
      user and model of the request. */
  lemma ForwardedIdIsTheMintedOne(env: Env, w: World, secrets: Secrets, model: string, p: Policy, key: ApiKey,
                                  id: string)
    requires ValidEnv(env) && Inv(env, w)
    requires Shows(secrets, w.cluster, model) && IsRendering(p, secrets, model)
    requires Authenticates(p, secrets, key, id)
    ensures key in w.minted && w.minted[key].id == id
  {
    var name := PoolOnlyHolds(p.credentialRefs, secrets, id);
    assert name in Elements(p.credentialRefs);
    var m := if name == APIKeySecretName(model) then model else ModelOfSecret(name);
    assert KeysIn(secrets, name) == Credentials(w.cluster, m);
    assert GoodCredential(env, w.minted, m, id, Credentials(w.cluster, m)[id]);
  }

  lemma {:induction false} PoolOnlyHolds(refs: seq<string>, secrets: Secrets, id: string) returns (name: string)
    requires id in Pool(refs, secrets)
    ensures name in refs && id in KeysIn(secrets, name) && Pool(refs, secrets)[id] == KeysIn(secrets, name)[id]
  {
    if id in KeysIn(secrets, refs[0]) {
      name := refs[0];
    } else {
      name := PoolOnlyHolds(refs[1..], secrets, id);
    }
  }
}
