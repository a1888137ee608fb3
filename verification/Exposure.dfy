/** What a policy that has fallen behind can admit: between a change of the Secrets and the next
    rendering, and whatever fails in between, a route admits none but its model's own current keys
    (operator/internal/controller/apikeys.go, operator/internal/controller/reconcilers/auth.go). */
module Exposure {
  import opened Wrappers
  import opened Policies
  import L = Ledger
  import R = LedgerRuns
  import F = Freshness
  import Text

  // ---------- one stale policy ----------

  /** `secrets` shows the Secrets the policy names, as far as they still exist, as the models' own. */
  ghost predicate NamesModels(p: Policy, secrets: Secrets, k: L.Cluster) {
    forall n | n in p.credentialRefs ::
      HasSuffix(n, SECRET_SUFFIX) && (n in secrets ==> KeysIn(secrets, n) == L.Credentials(k, ModelOfSecret(n)))
  }

  /** A policy that allows client IDs the model had at moment `i` admits, at any later moment `j`,
      only keys that are in the model's own Secret then. */
  lemma StalePolicyAdmitsOwnOnly(env: L.Env, ws: seq<L.World>, acts: seq<L.Action>, i: nat, j: nat,
                                 secrets: Secrets, model: string, p: Policy, key: L.ApiKey)
    requires L.ValidEnv(env) && R.IsRun(env, ws, acts) && i <= j < |ws|
    requires Allowed(p.authorization) <= L.Credentials(ws[i].cluster, model).Keys
    requires NamesModels(p, secrets, ws[j].cluster) && Admits(p, secrets, key)
    ensures key in L.Credentials(ws[j].cluster, model).Values
  {
    hide L.Next, L.Enabled, R.IsRun, Allowed;
    var id :| Authenticates(p, secrets, key, id) && id in Allowed(p.authorization);
    var name := PoolOnlyHolds(p.credentialRefs, secrets, id);
    var m := ModelOfSecret(name);
    assert id in L.Credentials(ws[j].cluster, m) && L.Credentials(ws[j].cluster, m)[id] == key;
    R.InvAlways(env, ws, acts, i);
    R.InvAlways(env, ws, acts, j);
    SameModel(env, ws[i], ws[j], model, m, id);
    assert L.Credentials(ws[j].cluster, model)[id] == key;
  }

  /** An identifier that stood in a model's Secret at some time stands in no other model's, ever. */
  lemma SameModel(env: L.Env, w: L.World, w': L.World, m: string, m': string, id: string)
    requires L.ValidEnv(env) && L.Inv(env, w) && L.Inv(env, w')
    requires id in L.Credentials(w.cluster, m) && id in L.Credentials(w'.cluster, m')
    ensures m == m'
  {
    var k, k' := L.Credentials(w.cluster, m)[id], L.Credentials(w'.cluster, m')[id];
    assert L.GoodCredential(env, w.minted, m, id, k);
    assert L.GoodCredential(env, w'.minted, m', id, k');
    L.ComposedForOne(env, id, w.minted[k].principal, w'.minted[k'].principal);
  }

  // ---------- the controllers and the ledger together ----------

  /** `theirs` are the names of the models' Secrets: those show the ledger, and no policy pools
      any other. */
  ghost predicate Tracks(secrets: Secrets, k: L.Cluster, theirs: set<string>) {
    && (forall n | n in theirs ::
          HasSuffix(n, SECRET_SUFFIX) && KeysIn(secrets, n) == L.Credentials(k, ModelOfSecret(n)))
    && forall n | n in secrets && Pooled(secrets, n) :: n in theirs
  }

  /** A run of the controllers beside a run of the ledger: at step `t` of the one, the other has come
      to moment `now[t]`.  Anything may fail in either. */
  datatype Together = Together(ws: seq<L.World>, las: seq<L.Action>, ss: seq<F.State>, fas: seq<F.Action>,
                               now: seq<nat>, theirs: set<string>)

  ghost predicate IsRun(env: L.Env, b: Together) {
    && R.IsRun(env, b.ws, b.las) && F.IsRun(b.ss, b.fas) && b.ss[0].policies == map[]
    && |b.now| == |b.ss|
    && (forall t, u | 0 <= t <= u < |b.now| :: b.now[t] <= b.now[u] < |b.ws|)
    && forall t | 0 <= t < |b.ss| :: Joined(b.ss[t], b.ws[b.now[t]].cluster, b.theirs)
  }

  ghost predicate Joined(s: F.State, k: L.Cluster, theirs: set<string>) {
    Tracks(s.secrets, k, theirs) && forall r | r in s.working :: APIKeySecretName(r.name) in theirs
  }

  /** The model had these client IDs at some moment up to `t`. */
  ghost predicate HadIds(ss: seq<F.State>, t: nat, model: string, ids: set<string>, theirs: set<string>) {
    APIKeySecretName(model) in theirs && exists u: nat :: u <= t && u < |ss| && ids == OwnIds(ss[u].secrets, model)
  }

  ghost predicate PassFrom(ss: seq<F.State>, t: nat, model: string, p: F.Pass, theirs: set<string>) {
    match p.progress
    case Started => true
    case HasIds(ids) => HadIds(ss, t, model, ids, theirs)
    case HasBoth(ids, names) => HadIds(ss, t, model, ids, theirs) && names <= theirs
  }

  ghost predicate PolicyFrom(ss: seq<F.State>, t: nat, model: string, p: Policy, theirs: set<string>) {
    HadIds(ss, t, model, Allowed(p.authorization), theirs) && forall n | n in p.credentialRefs :: n in theirs
  }

  ghost predicate AllFromThePast(ss: seq<F.State>, t: nat, theirs: set<string>)
    requires t < |ss|
  {
    && (forall r | r in ss[t].working :: PassFrom(ss, t, r.name, ss[t].working[r], theirs))
    && forall r | r in ss[t].policies :: PolicyFrom(ss, t, r.name, ss[t].policies[r], theirs)
  }

  lemma OwnName(model: string)
    ensures HasSuffix(APIKeySecretName(model), SECRET_SUFFIX) && ModelOfSecret(APIKeySecretName(model)) == model
  {}

  lemma HadIdsStill(ss: seq<F.State>, t: nat, model: string, ids: set<string>, theirs: set<string>)
    requires HadIds(ss, t, model, ids, theirs)
    ensures HadIds(ss, t + 1, model, ids, theirs)
  {}

  /** What a step leaves in a pass: what it had, or what the Secrets hold now. */
  lemma PassStep(s: F.State, a: F.Action, r: F.Request)
    requires F.Enabled(s, a) && r in F.Next(s, a).working
    ensures var p := F.Next(s, a).working[r];
      || p.progress.Started?
      || (r in s.working && s.working[r] == p)
      || (r in s.working && p.progress == F.HasIds(OwnIds(s.secrets, r.name)))
      || (r in s.working && s.working[r].progress.HasIds?
          && p.progress == F.HasBoth(s.working[r].progress.ids, PooledNames(s.secrets, r.name)))
  {
    hide OwnIds, PooledNames, RenderedFrom;
  }

  lemma PolicyStep(s: F.State, a: F.Action, r: F.Request)
    requires F.Enabled(s, a) && r in F.Next(s, a).policies
    ensures var p := F.Next(s, a).policies[r];
      || (r in s.policies && s.policies[r] == p)
      || (r in s.working && s.working[r].progress.HasBoth?
          && RenderedFrom(p, s.working[r].progress.ids, s.working[r].progress.names))
  {
    hide OwnIds, PooledNames, RenderedFrom;
  }

  lemma PassesFromThePast(ss: seq<F.State>, t: nat, a: F.Action, r: F.Request, k: L.Cluster, theirs: set<string>)
    requires t + 1 < |ss| && F.Enabled(ss[t], a) && ss[t + 1] == F.Next(ss[t], a)
    requires AllFromThePast(ss, t, theirs) && Joined(ss[t], k, theirs) && r in ss[t + 1].working
    ensures PassFrom(ss, t + 1, r.name, ss[t + 1].working[r], theirs)
  {
    PassStep(ss[t], a, r);
    hide F.Next, F.Enabled, OwnIds;
    if r in ss[t].working {
      assert PassFrom(ss, t, r.name, ss[t].working[r], theirs);
      assert ss[t + 1].working[r].progress == F.HasIds(OwnIds(ss[t].secrets, r.name)) ==>
        HadIds(ss, t, r.name, OwnIds(ss[t].secrets, r.name), theirs);
      forall n | n in PooledNames(ss[t].secrets, r.name) ensures n in theirs {}
    }
  }

  lemma PoliciesFromThePast(ss: seq<F.State>, t: nat, a: F.Action, r: F.Request, theirs: set<string>)
    requires t + 1 < |ss| && F.Enabled(ss[t], a) && ss[t + 1] == F.Next(ss[t], a)
    requires AllFromThePast(ss, t, theirs) && r in ss[t + 1].policies
    ensures PolicyFrom(ss, t + 1, r.name, ss[t + 1].policies[r], theirs)
  {
    PolicyStep(ss[t], a, r);
    hide F.Next, F.Enabled, OwnIds;
    var p := ss[t + 1].policies[r];
    if !(r in ss[t].policies && ss[t].policies[r] == p) {
      assert PassFrom(ss, t, r.name, ss[t].working[r], theirs);
      forall n | n in p.credentialRefs ensures n in theirs { assert n in Text.Elements(p.credentialRefs); }
    }
  }

  lemma {:induction false} AlwaysFromThePast(env: L.Env, b: Together, t: nat)
    requires IsRun(env, b) && t < |b.ss|
    ensures AllFromThePast(b.ss, t, b.theirs)
  {
    hide F.Next, F.Enabled, R.IsRun, PassFrom, PolicyFrom, Tracks;
    if t > 0 {
      AlwaysFromThePast(env, b, t - 1);
      assert Joined(b.ss[t - 1], b.ws[b.now[t - 1]].cluster, b.theirs);
      forall r | r in b.ss[t].working ensures PassFrom(b.ss, t, r.name, b.ss[t].working[r], b.theirs) {
        PassesFromThePast(b.ss, t - 1, b.fas[t - 1], r, b.ws[b.now[t - 1]].cluster, b.theirs);
      }
      forall r | r in b.ss[t].policies ensures PolicyFrom(b.ss, t, r.name, b.ss[t].policies[r], b.theirs) {
        PoliciesFromThePast(b.ss, t - 1, b.fas[t - 1], r, b.theirs);
      }
    }
  }

  // ---------- what is never exposed ----------

  /** At every step of every run, however stale the policies are and whatever has failed, a policy in
      force admits only keys that its model's own Secret holds at that very moment. */
  lemma AdmitsOwnOnly(env: L.Env, b: Together, t: nat, r: F.Request, key: L.ApiKey)
    requires L.ValidEnv(env) && IsRun(env, b) && t < |b.ss|
    requires r in b.ss[t].policies && Admits(b.ss[t].policies[r], b.ss[t].secrets, key)
    ensures key in L.Credentials(b.ws[b.now[t]].cluster, r.name).Values
  {
    hide R.IsRun, F.IsRun, Admits, L.ValidEnv;
    AlwaysFromThePast(env, b, t);
    var p := b.ss[t].policies[r];
    assert PolicyFrom(b.ss, t, r.name, p, b.theirs);
    var u: nat :| u <= t && Allowed(p.authorization) == OwnIds(b.ss[u].secrets, r.name);
    OwnName(r.name);
    assert Joined(b.ss[u], b.ws[b.now[u]].cluster, b.theirs);
    assert Joined(b.ss[t], b.ws[b.now[t]].cluster, b.theirs);
    StalePolicyAdmitsOwnOnly(env, b.ws, b.las, b.now[u], b.now[t], b.ss[t].secrets, r.name, p, key);
  }

  /** Once a key is in no Secret, no policy ever admits it again, rendered since or not. */
  lemma RevokedNeverAdmitted(env: L.Env, b: Together, i: nat, t: nat, r: F.Request, key: L.ApiKey)
    requires L.ValidEnv(env) && IsRun(env, b) && t < |b.ss| && i <= b.now[t]
    requires key in b.ws[i].minted && R.Nowhere(b.ws[i].cluster, key) && r in b.ss[t].policies
    ensures !Admits(b.ss[t].policies[r], b.ss[t].secrets, key)
  {
    hide R.IsRun, F.IsRun, Joined, Admits, L.ValidEnv;
    R.GoneForGood(env, b.ws, b.las, i, b.now[t], key);
    if Admits(b.ss[t].policies[r], b.ss[t].secrets, key) { AdmitsOwnOnly(env, b, t, r, key); }
  }

  /** And while nothing goes wrong, a policy that no refresh is due for admits exactly those keys. */
  lemma FreshAdmitsExactly(env: L.Env, b: Together, t: nat, r: F.Request)
    requires L.ValidEnv(env) && IsRun(env, b) && t < |b.ss| && F.Wanted(b.ss[t], r)
    requires forall u :: 0 <= u < |b.fas| ==> F.Benign(b.ss[u], b.fas[u])
    requires !F.WillRun(b.ss[t], r) && r !in b.ss[t].working && APIKeySecretName(r.name) in b.theirs
    ensures r in b.ss[t].policies
    ensures var own := L.Credentials(b.ws[b.now[t]].cluster, r.name).Values;
      forall key :: Admits(b.ss[t].policies[r], b.ss[t].secrets, key) <==> key in own
  {
    F.AlwaysFresh(b.ss, b.fas, t);
    assert F.Fresh(b.ss[t], r);
    hide R.IsRun, F.IsRun, F.Inv, L.ValidEnv, IsRendering;
    OwnName(r.name);
    assert Joined(b.ss[t], b.ws[b.now[t]].cluster, b.theirs);
    assert Shows(b.ss[t].secrets, b.ws[b.now[t]].cluster, r.name);
    RoutesIsolated(env, b.ws, b.las, b.now[t], b.ss[t].secrets, r.name, b.ss[t].policies[r]);
  }
}
