/** When a RevokeKey call succeeds, how it falls short, and runs in which calls end badly
    (key-manager/internal/secrets/manager.go). */
module Revocations {
  import opened Wrappers
  import opened ClientIds
  import opened Ledger
  import opened LedgerRuns

  ghost predicate MintsId(env: Env, w: World, a: Action, m: string, id: string) {
    MintsOne(env, w, a, m) && ClientId(env.hash, w.clients[a.c].op.principal, a.sequence) == id
  }

  lemma {:induction false} AbsentStays(env: Env, ws: seq<World>, acts: seq<Action>, i: nat, j: nat, m: string,
                                       id: string)
    requires ValidEnv(env) && IsRun(env, ws, acts) && i <= j < |ws|
    requires id !in Credentials(ws[i].cluster, m)
    requires forall s :: i <= s < j ==> !MintsId(env, ws[s], acts[s], m, id)
    ensures id !in Credentials(ws[j].cluster, m)
  {
    hide Next, Enabled, Inv;
    if i < j {
      AbsentStays(env, ws, acts, i, j - 1, m, id);
      InvAlways(env, ws, acts, j - 1);
      SecretStep(env, ws[j - 1], acts[j - 1], m);
    }
  }

  /** A revocation of `id` that no longer finds it in the Secret. */
  ghost predicate Hopeless(cl: Client, id: string) {
    match cl.pc
    case ReadSecret(_) => true
    case ReadConfigMap(_, s) => id !in s.data
    case WriteSecret(_, s, _) => id !in s.data
    case Done(o) => o.Failed?
    case _ => false
  }

  predicate IsRevocation(op: Op, m: string, id: string) {
    (op.Revoke? || op.Delete?) && op.model == m && op.id == id
  }

  lemma HopelessStays(env: Env, w: World, a: Action, c: nat)
    requires Inv(env, w) && Enabled(env, w, a) && Actor(a) == Some(c) && c in w.clients
    requires w.clients[c].op.Revoke? || w.clients[c].op.Delete?
    requires Hopeless(w.clients[c], w.clients[c].op.id)
    requires w.clients[c].op.id !in Credentials(w.cluster, ModelOf(w.clients[c].op))
    ensures c in Next(env, w, a).clients && Next(env, w, a).clients[c].op == w.clients[c].op
    ensures Hopeless(Next(env, w, a).clients[c], w.clients[c].op.id)
  {
    assert GoodClient(env, w.minted, w.clients[c]);
  }

  /** A revocation whose identifier is gone, and is not minted again, never succeeds. */
  lemma {:induction false} HopelessAlways(env: Env, ws: seq<World>, acts: seq<Action>, i: nat, j: nat, c: nat,
                                          m: string, id: string)
    requires ValidEnv(env) && IsRun(env, ws, acts) && i <= j < |ws|
    requires c in ws[i].clients && IsRevocation(ws[i].clients[c].op, m, id) && Hopeless(ws[i].clients[c], id)
    requires id !in Credentials(ws[i].cluster, m)
    requires forall s :: i <= s < j ==> !MintsId(env, ws[s], acts[s], m, id)
    ensures c in ws[j].clients && ws[j].clients[c].op == ws[i].clients[c].op
    ensures Hopeless(ws[j].clients[c], id)
    decreases j
  {
    hide Next, Enabled, Inv, Hopeless;
    if i < j {
      HopelessAlways(env, ws, acts, i, j - 1, c, m, id);
      AbsentStays(env, ws, acts, i, j - 1, m, id);
      InvAlways(env, ws, acts, j - 1);
      if Actor(acts[j - 1]) == Some(c) {
        HopelessStays(env, ws[j - 1], acts[j - 1], c);
      } else {
        OnlyActorMoves(env, ws[j - 1], acts[j - 1], c);
      }
    }
  }

  // ---------- after the Secret write ----------

  /** The call's next request, its ConfigMap write, goes through: no fault hits it, and the metadata
      ConfigMap is still the version the call read. */
  ghost predicate ForgetsInTime(w: World, a: Action, m: string, cm: Object<KeyInfo>) {
    a.Call? && m in w.cluster.configMaps && w.cluster.configMaps[m].version == cm.version
  }

  lemma ForgetStep(env: Env, w: World, a: Action, c: nat, m: string, id: string)
    requires Enabled(env, w, a) && Actor(a) == Some(c) && c in w.clients
    requires IsRevocation(w.clients[c].op, m, id) && w.clients[c].pc.ForgetKey?
    ensures c in Next(env, w, a).clients && Next(env, w, a).clients[c].op == w.clients[c].op
    ensures if ForgetsInTime(w, a, m, w.clients[c].pc.cm) then Next(env, w, a).clients[c].pc == Done(Revoked)
      else Hopeless(Next(env, w, a).clients[c], id)
    ensures Next(env, w, a).cluster.secrets == w.cluster.secrets
  {}

  lemma {:induction false} DoneStays(env: Env, ws: seq<World>, acts: seq<Action>, i: nat, j: nat, c: nat)
    requires IsPath(env, ws, acts) && i <= j < |ws| && c in ws[i].clients && ws[i].clients[c].pc.Done?
    ensures c in ws[j].clients && ws[j].clients[c] == ws[i].clients[c]
    decreases j
  {
    hide Next, Enabled;
    if i < j {
      DoneStays(env, ws, acts, i, j - 1, c);
      DoneTakesNoStep(env, ws[j - 1], acts[j - 1], c);
      OnlyActorMoves(env, ws[j - 1], acts[j - 1], c);
    }
  }

  lemma SecretWriteLeads(env: Env, w: World, a: Action, c: nat, m: string)
    requires RevokesOne(env, w, a, m) && Actor(a) == Some(c) && c in w.clients
    ensures var w' := Next(env, w, a);
      && c in w'.clients && w'.clients[c].op == w.clients[c].op
      && w.clients[c].pc.WriteSecret? && IsRevocation(w.clients[c].op, m, w.clients[c].op.id)
      && w'.clients[c].pc.ForgetKey? && w'.clients[c].pc.cm == w.clients[c].pc.cm
      && w.clients[c].op.id !in Credentials(w'.cluster, m)
  {}

  /** A revocation that has removed the credential, and whose identifier is not minted again, ends
      `Revoked` exactly if its one attempt at the ConfigMap is not hit by a fault and finds the
      version read before the Secret write.  A conflict there is retried from the top, where the
      credential is missing, so the call fails however the retries go.  `s` is the Secret write,
      `r` the call's next step. */
  lemma RevokeSucceedsExactly(env: Env, ws: seq<World>, acts: seq<Action>, s: nat, r: nat, j: nat, c: nat, m: string)
    requires ValidEnv(env) && IsRun(env, ws, acts) && s < r < j < |ws|
    requires RevokesOne(env, ws[s], acts[s], m) && Actor(acts[s]) == Some(c) && c in ws[s].clients
    requires Actor(acts[r]) == Some(c) && forall t :: s < t < r ==> Actor(acts[t]) != Some(c)
    requires forall t :: s < t < j ==> !MintsId(env, ws[t], acts[t], m, ws[s].clients[c].op.id)
    ensures c in ws[j].clients
    ensures ws[j].clients[c].pc == Done(Revoked) <==> ForgetsInTime(ws[r], acts[r], m, ws[s].clients[c].pc.cm)
  {
    hide Next, Enabled, Inv, RevokesOne, ForgetsInTime, MintsId;
    InvAlways(env, ws, acts, s);
    StepOf(env, ws, acts, s);
    SecretWriteLeads(env, ws[s], acts[s], c, m);
    var id := ws[s].clients[c].op.id;
    CallWaits(env, ws, acts, s + 1, r, c);
    StepOf(env, ws, acts, r);
    ForgetStep(env, ws[r], acts[r], c, m, id);
    if ForgetsInTime(ws[r], acts[r], m, ws[r].clients[c].pc.cm) {
      DoneStays(env, ws, acts, r + 1, j, c);
    } else {
      AbsentStays(env, ws, acts, s + 1, r + 1, m, id);
      HopelessAlways(env, ws, acts, r + 1, j, c, m, id);
    }
  }

  // ---------- a run in which it happens ----------

  const NOTHING := World(Cluster(map[], map[], 0), map[], map[])

  /** Both objects of `m` exist and are empty; nobody is busy but call `c`, about to read. */
  ghost predicate ObjectsReady(w: World, m: string, c: nat, op: Op) {
    && w.cluster == Cluster(map[m := Object(map[], map[], 1)], map[m := Object(map[], map[], 2)], 2)
    && w.minted == map[] && c in w.clients && w.clients[c] == Client(op, ReadSecret(0), [], [])
    && w.clients.Keys == {0, 1, c}
  }

  lemma OneStep(env: Env, w0: World, w: World, a: Action) returns (w': World)
    requires Reaches(env, w0, w) && Enabled(env, w, a)
    ensures w' == Next(env, w, a) && Reaches(env, w0, w')
  {
    hide Next, Enabled;
    ReachesStep(env, w0, w, a);
    w' := Next(env, w, a);
  }

  lemma ObjectsExist(env: Env, p: Principal) returns (w: World)
    requires p in env.principals && p.user != ""
    ensures Reaches(env, NOTHING, w) && ObjectsReady(w, p.model, 2, Create(p, ""))
  {
    hide Reaches;
    ReachesSelf(env, NOTHING);
    w := OneStep(env, NOTHING, NOTHING, Begin(0, EnsureSecret(p.model, map[])));
    w := OneStep(env, NOTHING, w, Call(0, true));
    w := OneStep(env, NOTHING, w, Call(0, true));
    w := OneStep(env, NOTHING, w, Begin(1, EnsureConfigMap(p.model, map[])));
    w := OneStep(env, NOTHING, w, Call(1, true));
    w := OneStep(env, NOTHING, w, Call(1, true));
    w := OneStep(env, NOTHING, w, Begin(2, Create(p, "")));
  }

  /** One credential with its entry, in objects of versions 3 and 4. */
  ghost predicate OneKey(env: Env, w: World, p: Principal, id: string, key: ApiKey) {
    && p.model in w.cluster.secrets && w.cluster.secrets[p.model].data == map[id := key]
    && p.model in w.cluster.configMaps && w.cluster.configMaps[p.model].data.Keys == {id}
    && w.cluster.configMaps[p.model].version <= w.cluster.revision && w.cluster.configMaps[p.model].labels == map[]
  }

  lemma KeyMinted(env: Env, p: Principal, key: ApiKey, w0: World) returns (w: World, id: string)
    requires Reaches(env, NOTHING, w0) && ObjectsReady(w0, p.model, 2, Create(p, ""))
    ensures Reaches(env, NOTHING, w) && OneKey(env, w, p, id, key) && w.clients.Keys == {0, 1, 2}
  {
    hide Reaches;
    w := OneStep(env, NOTHING, w0, Call(2, true));
    w := OneStep(env, NOTHING, w, Call(2, true));
    assert WithPrefix(UserPrefix(env.hash, p), {}) == {};
    id := ClientId(env.hash, p, 1);
    w := OneStep(env, NOTHING, w, Mint(2, 1, key, true));
    w := OneStep(env, NOTHING, w, Record(2, 0, true));
  }

  /** The auditor's revocation has read both objects. */
  ghost predicate HasRead(w: World, p: Principal, id: string, key: ApiKey, secret: Object<ApiKey>,
                          cm: Object<KeyInfo>) {
    && p.model in w.cluster.secrets && w.cluster.secrets[p.model] == secret && secret.data == map[id := key]
    && p.model in w.cluster.configMaps && id in w.cluster.configMaps[p.model].data
    && 3 in w.clients && w.clients[3] == Client(Revoke(p.model, id), WriteSecret(0, secret, cm), [], [])
  }

  lemma RevocationReads(env: Env, p: Principal, key: ApiKey, id: string, w0: World) returns (w: World)
    requires Reaches(env, NOTHING, w0) && OneKey(env, w0, p, id, key) && w0.clients.Keys == {0, 1, 2}
    ensures Reaches(env, NOTHING, w) && w.cluster == w0.cluster && w.clients.Keys == {0, 1, 2, 3}
    ensures HasRead(w, p, id, key, w.cluster.secrets[p.model], w.cluster.configMaps[p.model])
  {
    hide Reaches;
    w := OneStep(env, NOTHING, w0, Begin(3, Revoke(p.model, id)));
    w := OneStep(env, NOTHING, w, Call(3, true));
    w := OneStep(env, NOTHING, w, Call(3, true));
  }

  /** The operator rewrites the labels of the metadata ConfigMap. */
  lemma LabelsRewritten(env: Env, p: Principal, key: ApiKey, id: string, w0: World, secret: Object<ApiKey>,
                        cm: Object<KeyInfo>)
      returns (w: World)
    requires Reaches(env, NOTHING, w0) && HasRead(w0, p, id, key, secret, cm) && 4 !in w0.clients
    requires cm == w0.cluster.configMaps[p.model] && cm.labels == map[] && cm.version <= w0.cluster.revision
    ensures Reaches(env, NOTHING, w) && HasRead(w, p, id, key, secret, cm)
    ensures cm.version < w.cluster.configMaps[p.model].version
  {
    hide Reaches;
    var m, labels := p.model, map["app.kubernetes.io/managed-by" := "nebari-llm-operator"];
    assert labels != map[] by { assert "app.kubernetes.io/managed-by" in labels; }
    w := OneStep(env, NOTHING, w0, Begin(4, EnsureConfigMap(m, labels)));
    w := OneStep(env, NOTHING, w, Call(4, false));
    w := OneStep(env, NOTHING, w, Call(4, false));
  }

  lemma RetryFails(env: Env, p: Principal, key: ApiKey, id: string, w0: World, secret: Object<ApiKey>,
                   cm: Object<KeyInfo>)
      returns (w: World)
    requires Reaches(env, NOTHING, w0) && HasRead(w0, p, id, key, secret, cm)
    requires cm.version < w0.cluster.configMaps[p.model].version
    ensures Reaches(env, NOTHING, w) && 3 in w.clients && w.clients[3].pc == Done(Failed(KeyNotFound))
    ensures id !in Credentials(w.cluster, p.model) && id in Metadata(w.cluster, p.model)
  {
    hide Reaches;
    w := OneStep(env, NOTHING, w0, Call(3, true)); // the credential is removed
    w := OneStep(env, NOTHING, w, Call(3, true));  // the ConfigMap write conflicts
    w := OneStep(env, NOTHING, w, Call(3, true));
    w := OneStep(env, NOTHING, w, Call(3, true));
    w := OneStep(env, NOTHING, w, Call(3, true));
  }

  /** It does happen, whatever the hash and whoever the user: a key is minted, its revocation reads
      both objects, the operator updates the ConfigMap's labels, and the revocation removes the
      credential, conflicts, retries, and reports a key that is not found, leaving its entry. */
  lemma ConflictHappens(env: Env, p: Principal, key: ApiKey) returns (w: World, id: string)
    requires p in env.principals && p.user != ""
    ensures Initial(NOTHING) && Reaches(env, NOTHING, w)
    ensures 3 in w.clients && w.clients[3].pc == Done(Failed(KeyNotFound))
    ensures id !in Credentials(w.cluster, p.model) && id in Metadata(w.cluster, p.model)
  {
    hide Reaches;
    var w1 := ObjectsExist(env, p);
    var w2, id2 := KeyMinted(env, p, key, w1);
    id := id2;
    var w3 := RevocationReads(env, p, key, id, w2);
    var secret, cm := w3.cluster.secrets[p.model], w3.cluster.configMaps[p.model];
    var w4 := LabelsRewritten(env, p, key, id, w3, secret, cm);
    w := RetryFails(env, p, key, id, w4, secret, cm);
  }

  /** A CreateKey whose last reply is lost: the call reports an error, and both objects hold its key. */
  lemma UnheardKeyHappens(env: Env, p: Principal, key: ApiKey) returns (w: World, id: string)
    requires p in env.principals && p.user != ""
    ensures Initial(NOTHING) && Reaches(env, NOTHING, w)
    ensures 2 in w.clients && w.clients[2].pc == Done(Failed(OtherError)) && w.clients[2].recorded == [id]
    ensures id in Credentials(w.cluster, p.model) && id in Metadata(w.cluster, p.model)
  {
    hide Reaches;
    w := ObjectsExist(env, p);
    w := OneStep(env, NOTHING, w, Call(2, true));
    w := OneStep(env, NOTHING, w, Call(2, true));
    assert WithPrefix(UserPrefix(env.hash, p), {}) == {};
    id := ClientId(env.hash, p, 1);
    w := OneStep(env, NOTHING, w, Mint(2, 1, key, true));
    w := OneStep(env, NOTHING, w, ReplyLost(2, 0, true));
  }
}
