/** The API-key ledger: one Secret (client ID -> key) and one ConfigMap (client ID -> metadata)
    for each model, kept by several writers with no transaction across the two objects.

    The writers are the key-manager's CreateKey and RevokeKey calls, the DELETE handler (which
    lists before it revokes), and the operator, which creates the objects, rewrites their labels
    and deletes them.  Every call to the API server is one step; steps of different writers
    interleave freely.  A write is a compare-and-set on the object's resource version. */
module Ledger {
  import opened Wrappers
  import opened ClientIds

  // ---------- objects ----------

  type Labels = map<string, string>

  datatype ApiKey = ApiKey(token: nat)

  datatype KeyInfo = KeyInfo(clientId: string, creator: string, description: string, createdAt: int,
                             modelName: string, namespace: string)

  /** `version` is the resource version: the revision of the write that produced the object. */
  datatype Object<+V> = Object(data: map<string, V>, labels: Labels, version: nat)

  /** The objects, by model.  `revision` counts the API server's writes, so that a version is
      never given out twice, not even across a delete and a re-creation. */
  datatype Cluster = Cluster(secrets: map<string, Object<ApiKey>>,
                             configMaps: map<string, Object<KeyInfo>>,
                             revision: nat)

  /** What the API server stores for an accepted write.  Writing an identical object may or may
      not give it a new version (`touch`). */
  function Written<V(==)>(current: Object<V>, data: map<string, V>, labels: Labels, revision: nat,
                          touch: bool): Object<V> {
    if data == current.data && labels == current.labels && !touch then current
    else Object(data, labels, revision)
  }

  function PutSecret(k: Cluster, m: string, data: map<string, ApiKey>, labels: Labels, touch: bool): Cluster
    requires m in k.secrets
  {
    Cluster(k.secrets[m := Written(k.secrets[m], data, labels, k.revision + 1, touch)], k.configMaps, k.revision + 1)
  }

  function PutConfigMap(k: Cluster, m: string, data: map<string, KeyInfo>, labels: Labels, touch: bool): Cluster
    requires m in k.configMaps
  {
    Cluster(k.secrets, k.configMaps[m := Written(k.configMaps[m], data, labels, k.revision + 1, touch)], k.revision + 1)
  }

  /** The credentials a model's Secret holds; none when there is no Secret. */
  function Credentials(k: Cluster, m: string): map<string, ApiKey> {
    if m in k.secrets then k.secrets[m].data else map[]
  }

  function Metadata(k: Cluster, m: string): map<string, KeyInfo> {
    if m in k.configMaps then k.configMaps[m].data else map[]
  }

  // ---------- calls in progress ----------

  datatype Op =
    | Create(principal: Principal, description: string)
    | Revoke(model: string, id: string)                                   // RevokeKey, by the auditor
    | Delete(user: string, namespace: string, model: string, id: string)  // the DELETE handler
    | EnsureSecret(model: string, labels: Labels)                         // the operator's two helpers
    | EnsureConfigMap(model: string, labels: Labels)

  datatype Failure = UsernameRequired | ObjectNotFound | KeyNotFound | Forbidden | TooManyConflicts | AlreadyExists
      | Conflict | OtherError

  datatype Outcome = Created(id: string, key: ApiKey) | Revoked | Ensured | Failed(failure: Failure)

  /** Where a call stands: what it is about to ask of the API server, and what it has read. */
  datatype Pc =
    | Listing
    | ReadSecret(attempt: nat)
    | ReadConfigMap(attempt: nat, secret: Object<ApiKey>)
    | WriteSecret(attempt: nat, secret: Object<ApiKey>, cm: Object<KeyInfo>)
    | RecordKey(attempt: nat, cm: Object<KeyInfo>, id: string, key: ApiKey)  // CreateKey's ConfigMap write
    | ForgetKey(attempt: nat, cm: Object<KeyInfo>)                           // RevokeKey's ConfigMap write
    | EnsureRead
    | EnsureWriteSecret(existing: Option<Object<ApiKey>>)
    | EnsureWriteConfigMap(found: Option<Object<KeyInfo>>)
    | Done(outcome: Outcome)

  /** A call and its history: the identifiers it has put into the Secret and into the ConfigMap. */
  datatype Client = Client(op: Op, pc: Pc, added: seq<string>, recorded: seq<string>)

  /** For whom, and under which identifier, a key was generated. */
  datatype Minting = Minting(principal: Principal, id: string)

  datatype World = World(cluster: Cluster, clients: map<nat, Client>, minted: map<ApiKey, Minting>)

  /** What is fixed: the hash, the (user, model) pairs in play, and the key namespace. */
  datatype Env = Env(hash: Hash, principals: set<Principal>, namespace: string)

  ghost predicate ValidEnv(env: Env) {
    && HexDigest(env.hash)
    && (forall p :: p in env.principals ==> NUL !in p.model)
    && (forall p, q :: p in env.principals && q in env.principals ==> NoCollision(env.hash, p, q))
  }

  const MAX_RETRIES: nat := 3

  function Retry(attempt: nat): Pc {
    if attempt + 1 < MAX_RETRIES then ReadSecret(attempt + 1) else Done(Failed(TooManyConflicts))
  }

  function Start(op: Op): Pc {
    match op
    case Create(p, _) => if p.user == "" then Done(Failed(UsernameRequired)) else ReadSecret(0)
    case Revoke(_, _) => ReadSecret(0)
    case Delete(_, _, _, _) => Listing
    case EnsureSecret(_, _) => EnsureRead
    case EnsureConfigMap(_, _) => EnsureRead
  }

  function ModelOf(op: Op): string {
    match op
    case Create(p, _) => p.model
    case Revoke(m, _) => m
    case Delete(_, _, m, _) => m
    case EnsureSecret(m, _) => m
    case EnsureConfigMap(m, _) => m
  }

  predicate Revokes(op: Op, m: string, id: string) {
    (op.Revoke? || op.Delete?) && op.model == m && op.id == id
  }

  // ---------- steps ----------

  /** A step, with the choices that are not the code's to make. */
  datatype Action =
    | Begin(c: nat, op: Op)
    | List(c: nat, entry: Option<string>)                             // ListKeys, and the entry the handler matched
    | Call(c: nat, touch: bool)                                       // the call's next request
    | Mint(c: nat, sequence: nat, key: ApiKey, touch: bool)           // a CreateKey's Secret write, with its new key
    | Record(c: nat, now: int, touch: bool)                           // a CreateKey's ConfigMap write, with the time
    | Fault(c: nat)                                                   // the next request fails, not by a conflict
    | ReplyLost(c: nat, now: int, touch: bool)                        // the last write is served, its reply lost
    | DropSecret(model: string)                                       // the operator's finalizer
    | DropConfigMap(model: string)

  /** The call that takes the step; the operator's finalizer is nobody's call. */
  function Actor(a: Action): Option<nat> {
    match a
    case Begin(c, _) => Some(c)
    case List(c, _) => Some(c)
    case Call(c, _) => Some(c)
    case Mint(c, _, _, _) => Some(c)
    case Record(c, _, _) => Some(c)
    case Fault(c) => Some(c)
    case ReplyLost(c, _, _) => Some(c)
    case _ => None
  }

  predicate Running(w: World, c: nat) {
    c in w.clients && !w.clients[c].pc.Done?
  }

  /** The request after which the call returns.  (When the reply to an earlier write is lost, the write
      is an ordinary step and a Fault follows.) */
  predicate AtLastWrite(cl: Client) {
    || (cl.op.Create? && cl.pc.RecordKey?)
    || ((cl.op.Revoke? || cl.op.Delete?) && cl.pc.ForgetKey?)
    || (cl.op.EnsureSecret? && cl.pc.EnsureWriteSecret?)
    || (cl.op.EnsureConfigMap? && cl.pc.EnsureWriteConfigMap?)
  }

  /** The metadata entry that the DELETE handler looks for. */
  predicate Matches(info: KeyInfo, op: Op)
    requires op.Delete?
  {
    info.clientId == op.id && info.namespace == op.namespace
  }

  ghost predicate Enabled(env: Env, w: World, a: Action) {
    match a
    case Begin(c, op) =>
      c !in w.clients && (op.Create? ==> op.principal in env.principals)
    case List(c, entry) =>
      && Running(w, c) && w.clients[c].op.Delete? && w.clients[c].pc.Listing?
      && var op := w.clients[c].op;
         var keys := Metadata(w.cluster, op.model);
         (match entry
          case Some(k) => k in keys && Matches(keys[k], op)
          case None => forall k :: k in keys ==> !Matches(keys[k], op))
    case Call(c, _) =>
      && Running(w, c)
      && var cl := w.clients[c];
         (match cl.pc
          case Listing => false
          case RecordKey(_, _, _, _) => false
          case WriteSecret(_, _, _) => cl.op.Revoke? || cl.op.Delete?
          case ForgetKey(_, _) => cl.op.Revoke? || cl.op.Delete?
          case EnsureRead => cl.op.EnsureSecret? || cl.op.EnsureConfigMap?
          case EnsureWriteSecret(_) => cl.op.EnsureSecret?
          case EnsureWriteConfigMap(_) => cl.op.EnsureConfigMap?
          case _ => true)
    case Mint(c, sequence, key, touch) =>
      && Running(w, c) && w.clients[c].op.Create? && w.clients[c].pc.WriteSecret?
      && key !in w.minted
      && var pc := w.clients[c].pc;
         IsNextSequence(env.hash, w.clients[c].op.principal, pc.secret.data.Keys, pc.cm.data.Keys, sequence)
    case Record(c, _, _) =>
      Running(w, c) && w.clients[c].op.Create? && w.clients[c].pc.RecordKey?
    case Fault(c) => Running(w, c)
    case ReplyLost(c, _, _) => Running(w, c) && AtLastWrite(w.clients[c])
    case DropSecret(m) => m in w.cluster.secrets
    case DropConfigMap(m) => m in w.cluster.configMaps
  }

  function At(w: World, c: nat, pc: Pc): World
    requires c in w.clients
  {
    w.(clients := w.clients[c := w.clients[c].(pc := pc)])
  }

  /** The call returns an error that is no conflict. */
  function Unheard(w: World, c: nat): World
    requires c in w.clients
  {
    At(w, c, Done(Failed(OtherError)))
  }

  function Next(env: Env, w: World, a: Action): World
    requires Enabled(env, w, a)
  {
    match a
    case Begin(c, op) =>
      w.(clients := w.clients[c := Client(op, Start(op), [], [])])
    case List(c, entry) => AfterList(w, c, entry)
    case Call(c, touch) => AfterCall(w, c, touch)
    case Mint(c, sequence, key, touch) => AfterMint(env, w, c, sequence, key, touch)
    case Record(c, now, touch) => AfterRecord(env, w, c, now, touch)
    case Fault(c) => Unheard(w, c)
    case ReplyLost(c, now, touch) =>
      Unheard(if w.clients[c].pc.RecordKey? then AfterRecord(env, w, c, now, touch) else AfterCall(w, c, touch), c)
    case DropSecret(m) => w.(cluster := w.cluster.(secrets := w.cluster.secrets - {m},
                                                   revision := w.cluster.revision + 1))
    case DropConfigMap(m) => w.(cluster := w.cluster.(configMaps := w.cluster.configMaps - {m},
                                                      revision := w.cluster.revision + 1))
  }

  /** deleteKey: 500 without a ConfigMap, 404 without a match, 403 for another user's key. */
  function AfterList(w: World, c: nat, entry: Option<string>): (w': World)
    requires Running(w, c) && w.clients[c].op.Delete?
    requires entry.Some? ==> entry.value in Metadata(w.cluster, w.clients[c].op.model)
    ensures c in w'.clients && w'.clients == w.clients[c := w'.clients[c]]
  {
    var op := w.clients[c].op;
    if op.model !in w.cluster.configMaps then At(w, c, Done(Failed(ObjectNotFound)))
    else match entry
      case None => At(w, c, Done(Failed(KeyNotFound)))
      case Some(k) =>
        if Metadata(w.cluster, op.model)[k].creator != op.user then At(w, c, Done(Failed(Forbidden)))
        else At(w, c, ReadSecret(0))
  }

  function AfterCall(w: World, c: nat, touch: bool): (w': World)
    requires Running(w, c)
    requires w.clients[c].pc.WriteSecret? || w.clients[c].pc.ForgetKey? ==>
      w.clients[c].op.Revoke? || w.clients[c].op.Delete?
    requires w.clients[c].pc.EnsureRead? ==> w.clients[c].op.EnsureSecret? || w.clients[c].op.EnsureConfigMap?
    requires w.clients[c].pc.EnsureWriteSecret? ==> w.clients[c].op.EnsureSecret?
    requires w.clients[c].pc.EnsureWriteConfigMap? ==> w.clients[c].op.EnsureConfigMap?
    ensures c in w'.clients && w'.clients == w.clients[c := w'.clients[c]]
  {
    var k := w.cluster;
    var op := w.clients[c].op;
    var m := ModelOf(op);
    match w.clients[c].pc
    case ReadSecret(n) =>
      if m in k.secrets then At(w, c, ReadConfigMap(n, k.secrets[m])) else At(w, c, Done(Failed(ObjectNotFound)))
    case ReadConfigMap(n, secret) =>
      if m in k.configMaps then At(w, c, WriteSecret(n, secret, k.configMaps[m]))
          else At(w, c, Done(Failed(ObjectNotFound)))
    case WriteSecret(n, secret, cm) =>
      if op.id !in secret.data then At(w, c, Done(Failed(KeyNotFound)))
      else if m !in k.secrets then At(w, c, Done(Failed(ObjectNotFound)))
      else if k.secrets[m].version != secret.version then At(w, c, Retry(n))
      else At(w, c, ForgetKey(n, cm)).(cluster := PutSecret(k, m, secret.data - {op.id}, secret.labels, touch))
    case ForgetKey(n, cm) =>
      if m !in k.configMaps then At(w, c, Done(Failed(ObjectNotFound)))
      else if k.configMaps[m].version != cm.version then At(w, c, Retry(n))
      else At(w, c, Done(Revoked)).(cluster := PutConfigMap(k, m, cm.data - {op.id}, cm.labels, touch))
    case EnsureRead =>
      if op.EnsureSecret? then
        At(w, c, EnsureWriteSecret(if m in k.secrets then Some(k.secrets[m]) else None))
      else
        At(w, c, EnsureWriteConfigMap(if m in k.configMaps then Some(k.configMaps[m]) else None))
    case EnsureWriteSecret(existing) =>
      (match existing
       case None =>
         if m in k.secrets then At(w, c, Done(Failed(AlreadyExists)))
         else At(w, c, Done(Ensured)).(cluster :=
           k.(secrets := k.secrets[m := Object(map[], op.labels, k.revision + 1)], revision := k.revision + 1))
       case Some(o) =>
         if m !in k.secrets then At(w, c, Done(Failed(ObjectNotFound)))
         else if k.secrets[m].version != o.version then At(w, c, Done(Failed(Conflict)))
         else At(w, c, Done(Ensured)).(cluster := PutSecret(k, m, o.data, op.labels, touch)))
    case EnsureWriteConfigMap(found) =>
      (match found
       case None =>
         if m in k.configMaps then At(w, c, Done(Failed(AlreadyExists)))
         else At(w, c, Done(Ensured)).(cluster :=
           k.(configMaps := k.configMaps[m := Object(map[], op.labels, k.revision + 1)], revision := k.revision + 1))
       case Some(o) =>
         if m !in k.configMaps then At(w, c, Done(Failed(ObjectNotFound)))
         else if k.configMaps[m].version != o.version then At(w, c, Done(Failed(Conflict)))
         else At(w, c, Done(Ensured)).(cluster := PutConfigMap(k, m, o.data, op.labels, touch)))
    case _ => w
  }

  function AfterMint(env: Env, w: World, c: nat, sequence: nat, key: ApiKey, touch: bool): (w': World)
    requires Running(w, c) && w.clients[c].op.Create? && w.clients[c].pc.WriteSecret?
    ensures c in w'.clients && w'.clients == w.clients[c := w'.clients[c]]
  {
    var k := w.cluster;
    var cl := w.clients[c];
    var p := cl.op.principal;
    var id := ClientId(env.hash, p, sequence);
    var x := w.(minted := w.minted[key := Minting(p, id)]);
    if p.model !in k.secrets then At(x, c, Done(Failed(ObjectNotFound)))
    else if k.secrets[p.model].version != cl.pc.secret.version then At(x, c, Retry(cl.pc.attempt))
    else
      x.(cluster := PutSecret(k, p.model, cl.pc.secret.data[id := key], cl.pc.secret.labels, touch),
          clients := w.clients[c := cl.(pc := RecordKey(cl.pc.attempt, cl.pc.cm, id, key), added := cl.added + [id])])
  }

  function AfterRecord(env: Env, w: World, c: nat, now: int, touch: bool): (w': World)
    requires Running(w, c) && w.clients[c].op.Create? && w.clients[c].pc.RecordKey?
    ensures c in w'.clients && w'.clients == w.clients[c := w'.clients[c]]
  {
    var k := w.cluster;
    var cl := w.clients[c];
    var p := cl.op.principal;
    var pc := cl.pc;
    if p.model !in k.configMaps then At(w, c, Done(Failed(ObjectNotFound)))
    else if k.configMaps[p.model].version != pc.cm.version then At(w, c, Retry(pc.attempt))
    else
      var info := KeyInfo(pc.id, p.user, cl.op.description, now, p.model, env.namespace);
      w.(cluster := PutConfigMap(k, p.model, pc.cm.data[pc.id := info], pc.cm.labels, touch),
         clients := w.clients[c := cl.(pc := Done(Created(pc.id, pc.key)), recorded := cl.recorded + [pc.id])])
  }

  // ---------- what every step keeps ----------

  /** `id` was composed for `p`. */
  ghost predicate ComposedFor(env: Env, id: string, p: Principal) {
    p in env.principals && exists n: nat :: id == ClientId(env.hash, p, n)
  }

  /** An identifier determines the user and the model it was composed for. */
  lemma ComposedForOne(env: Env, id: string, p: Principal, q: Principal)
    requires ValidEnv(env) && ComposedFor(env, id, p) && ComposedFor(env, id, q)
    ensures p == q
  {
    var m: nat :| id == ClientId(env.hash, p, m);
    var n: nat :| id == ClientId(env.hash, q, n);
    ClientIdUnambiguous(env.hash, p, m, q, n);
  }

  /** A copy is current when its version is; and no copy carries a version from the future. */
  ghost predicate Honest<V(!new)>(copy: Object<V>, store: map<string, Object<V>>, m: string, revision: nat) {
    copy.version <= revision && (m in store && store[m].version == copy.version ==> store[m] == copy)
  }

  ghost predicate HonestSecret(k: Cluster, m: string, copy: Object<ApiKey>) {
    Honest(copy, k.secrets, m, k.revision)
  }

  ghost predicate HonestConfigMap(k: Cluster, m: string, copy: Object<KeyInfo>) {
    Honest(copy, k.configMaps, m, k.revision)
  }

  ghost predicate ClientCopies(k: Cluster, cl: Client) {
    var m := ModelOf(cl.op);
    match cl.pc
    case ReadConfigMap(_, s) => HonestSecret(k, m, s)
    case WriteSecret(_, s, cm) => HonestSecret(k, m, s) && HonestConfigMap(k, m, cm)
    case RecordKey(_, cm, _, _) => HonestConfigMap(k, m, cm)
    case ForgetKey(_, cm) => HonestConfigMap(k, m, cm)
    case EnsureWriteSecret(s) => s.Some? ==> HonestSecret(k, m, s.value)
    case EnsureWriteConfigMap(cm) => cm.Some? ==> HonestConfigMap(k, m, cm.value)
    case _ => true
  }

  /** The compare-and-set invariant. */
  ghost predicate Copies(w: World) {
    && (forall m :: m in w.cluster.secrets ==> w.cluster.secrets[m].version <= w.cluster.revision)
    && (forall m :: m in w.cluster.configMaps ==> w.cluster.configMaps[m].version <= w.cluster.revision)
    && (forall c :: c in w.clients ==> ClientCopies(w.cluster, w.clients[c]))
  }

  /** A stored credential is a generated key, under the identifier composed for the user it was
      generated for, in that pair's model. */
  ghost predicate GoodCredential(env: Env, minted: map<ApiKey, Minting>, m: string, id: string, key: ApiKey) {
    && key in minted && minted[key].id == id && minted[key].principal.model == m
    && ComposedFor(env, id, minted[key].principal)
  }

  ghost predicate GoodSecrets(env: Env, w: World) {
    forall m, id :: m in w.cluster.secrets && id in w.cluster.secrets[m].data ==>
      GoodCredential(env, w.minted, m, id, w.cluster.secrets[m].data[id])
  }

  ghost predicate GoodInfo(env: Env, m: string, id: string, info: KeyInfo) {
    && info.clientId == id && info.modelName == m && info.namespace == env.namespace
    && ComposedFor(env, id, Principal(info.creator, m))
  }

  ghost predicate GoodMetadata(env: Env, w: World) {
    forall m, id :: m in w.cluster.configMaps && id in w.cluster.configMaps[m].data ==>
      GoodInfo(env, m, id, w.cluster.configMaps[m].data[id])
  }

  /** What a call in progress knows. */
  ghost predicate GoodClient(env: Env, minted: map<ApiKey, Minting>, cl: Client) {
    && (cl.op.Create? ==> cl.op.principal in env.principals)
    && (cl.pc.RecordKey? ==> cl.op.Create? && cl.pc.id !in cl.pc.cm.data)
    && (cl.op.Create? && cl.pc.RecordKey? ==>
          GoodCredential(env, minted, cl.op.principal.model, cl.pc.id, cl.pc.key)
              && minted[cl.pc.key].principal == cl.op.principal)
    && (cl.op.Delete? && (cl.pc.ReadSecret? || cl.pc.ReadConfigMap? || cl.pc.WriteSecret? || cl.pc.ForgetKey?) ==>
          ComposedFor(env, cl.op.id, Principal(cl.op.user, cl.op.model)))
  }

  ghost predicate GoodClients(env: Env, w: World) {
    forall c :: c in w.clients ==> GoodClient(env, w.minted, w.clients[c])
  }

  ghost predicate Inv(env: Env, w: World) {
    Copies(w) && GoodSecrets(env, w) && GoodMetadata(env, w) && GoodClients(env, w)
  }

  /** Nothing stored yet, nobody running. */
  ghost predicate Initial(w: World) {
    w.cluster.secrets == map[] && w.cluster.configMaps == map[] && w.clients == map[] && w.minted == map[]
  }

  lemma InitialInv(env: Env, w: World)
    requires Initial(w)
    ensures Inv(env, w)
  {}

  /** Objects only ever change by taking a version that no one has seen. */
  ghost predicate Advances(k: Cluster, k': Cluster) {
    && k.revision <= k'.revision
    && (forall m :: m in k'.secrets ==>
          (m in k.secrets && k'.secrets[m] == k.secrets[m]) || k.revision < k'.secrets[m].version <= k'.revision)
    && (forall m :: m in k'.configMaps ==>
          (m in k.configMaps && k'.configMaps[m] == k.configMaps[m])
              || k.revision < k'.configMaps[m].version <= k'.revision)
  }

  lemma PutSecretAdvances(k: Cluster, m: string, data: map<string, ApiKey>, labels: Labels, touch: bool)
    requires m in k.secrets
    ensures Advances(k, PutSecret(k, m, data, labels, touch))
  {}

  lemma PutConfigMapAdvances(k: Cluster, m: string, data: map<string, KeyInfo>, labels: Labels, touch: bool)
    requires m in k.configMaps
    ensures Advances(k, PutConfigMap(k, m, data, labels, touch))
  {}

  lemma CallAdvances(env: Env, w: World, c: nat, touch: bool)
    requires Enabled(env, w, Call(c, touch))
    ensures Advances(w.cluster, AfterCall(w, c, touch).cluster)
  {
    var k := w.cluster;
    var op := w.clients[c].op;
    var m := ModelOf(op);
    match w.clients[c].pc
    case WriteSecret(n, secret, cm) =>
      if m in k.secrets { PutSecretAdvances(k, m, secret.data - {op.id}, secret.labels, touch); }
    case ForgetKey(n, cm) =>
      if m in k.configMaps { PutConfigMapAdvances(k, m, cm.data - {op.id}, cm.labels, touch); }
    case EnsureWriteSecret(existing) =>
      if existing.Some? && m in k.secrets { PutSecretAdvances(k, m, existing.value.data, op.labels, touch); }
    case EnsureWriteConfigMap(found) =>
      if found.Some? && m in k.configMaps { PutConfigMapAdvances(k, m, found.value.data, op.labels, touch); }
    case _ =>
  }

  lemma ClusterAdvances(env: Env, w: World, a: Action)
    requires Enabled(env, w, a)
    requires !a.ReplyLost?
    ensures Advances(w.cluster, Next(env, w, a).cluster)
  {
    match a
    case Call(c, touch) => CallAdvances(env, w, c, touch);
    case Mint(c, sequence, key, touch) =>
      var p := w.clients[c].op.principal;
      if p.model in w.cluster.secrets {
        var copy := w.clients[c].pc.secret;
        PutSecretAdvances(w.cluster, p.model, copy.data[ClientId(env.hash, p, sequence) := key], copy.labels, touch);
      }
    case _ =>
  }

  lemma CopiesStayHonest(k: Cluster, k': Cluster, cl: Client)
    requires Advances(k, k') && ClientCopies(k, cl)
    ensures ClientCopies(k', cl)
  {}

  lemma CallCopiesHonest(env: Env, w: World, c: nat, touch: bool)
    requires Copies(w) && Enabled(env, w, Call(c, touch))
    ensures ClientCopies(AfterCall(w, c, touch).cluster, AfterCall(w, c, touch).clients[c])
  {
    CallAdvances(env, w, c, touch);
    CopiesStayHonest(w.cluster, AfterCall(w, c, touch).cluster, w.clients[c]);
  }

  lemma MintCopiesHonest(env: Env, w: World, c: nat, sequence: nat, key: ApiKey, touch: bool)
    requires Copies(w) && Enabled(env, w, Mint(c, sequence, key, touch))
    ensures var w' := AfterMint(env, w, c, sequence, key, touch); ClientCopies(w'.cluster, w'.clients[c])
  {
    ClusterAdvances(env, w, Mint(c, sequence, key, touch));
    CopiesStayHonest(w.cluster, AfterMint(env, w, c, sequence, key, touch).cluster, w.clients[c]);
  }

  /** The acting call keeps the copies it had or takes fresh ones. */
  lemma OwnCopiesHonest(env: Env, w: World, a: Action, c: nat)
    requires Copies(w) && Enabled(env, w, a)
    requires Actor(a) == Some(c)
    requires !a.ReplyLost?
    ensures ClientCopies(Next(env, w, a).cluster, Next(env, w, a).clients[c])
  {
    hide AfterCall, AfterMint, IsNextSequence;
    match a
    case Call(_, touch) => CallCopiesHonest(env, w, c, touch);
    case Mint(_, sequence, key, touch) => MintCopiesHonest(env, w, c, sequence, key, touch);
    case _ =>
  }

  /** A step moves its own call and no other. */
  lemma OnlyActorMoves(env: Env, w: World, a: Action, c: nat)
    requires Enabled(env, w, a) && Actor(a) != Some(c)
    ensures c in Next(env, w, a).clients <==> c in w.clients
    ensures c in w.clients ==> Next(env, w, a).clients[c] == w.clients[c]
  {
    hide AfterList, AfterCall, AfterMint, AfterRecord, IsNextSequence;
  }

  lemma CopiesKept(env: Env, w: World, a: Action)
    requires Copies(w) && Enabled(env, w, a)
    requires !a.ReplyLost?
    ensures Copies(Next(env, w, a))
  {
    var w' := Next(env, w, a);
    ClusterAdvances(env, w, a);
    forall c | c in w'.clients ensures ClientCopies(w'.cluster, w'.clients[c]) {
      if Actor(a) == Some(c) {
        OwnCopiesHonest(env, w, a, c);
      } else {
        OnlyActorMoves(env, w, a, c);
        CopiesStayHonest(w.cluster, w'.cluster, w.clients[c]);
      }
    }
  }

  lemma FewerCredentialsGood(env: Env, w: World, w': World)
    requires GoodSecrets(env, w) && w'.minted == w.minted
    requires forall m :: m in w'.cluster.secrets ==> w'.cluster.secrets[m].data.Items <= Credentials(w.cluster, m).Items
    ensures GoodSecrets(env, w')
  {
    forall m, id | m in w'.cluster.secrets && id in w'.cluster.secrets[m].data
      ensures GoodCredential(env, w'.minted, m, id, w'.cluster.secrets[m].data[id])
    {
      assert (id, w'.cluster.secrets[m].data[id]) in w'.cluster.secrets[m].data.Items;
    }
  }

  lemma FewerEntriesGood(env: Env, w: World, w': World)
    requires GoodMetadata(env, w)
    requires forall m :: m in w'.cluster.configMaps ==>
               w'.cluster.configMaps[m].data.Items <= Metadata(w.cluster, m).Items
    ensures GoodMetadata(env, w')
  {
    forall m, id | m in w'.cluster.configMaps && id in w'.cluster.configMaps[m].data
      ensures GoodInfo(env, m, id, w'.cluster.configMaps[m].data[id])
    {
      assert (id, w'.cluster.configMaps[m].data[id]) in w'.cluster.configMaps[m].data.Items;
    }
  }

  /** No request of a call other than a CreateKey adds to either object. */
  lemma CallAddsNothing(env: Env, w: World, c: nat, touch: bool)
    requires Copies(w) && Enabled(env, w, Call(c, touch))
    ensures var w' := AfterCall(w, c, touch);
      && w'.minted == w.minted
      && (forall m :: m in w'.cluster.secrets ==> w'.cluster.secrets[m].data.Items <= Credentials(w.cluster, m).Items)
      && (forall m :: m in w'.cluster.configMaps ==>
          w'.cluster.configMaps[m].data.Items <= Metadata(w.cluster, m).Items)
  {
    hide AfterCall;
    assert ClientCopies(w.cluster, w.clients[c]);
    if w.clients[c].pc.EnsureWriteSecret? || w.clients[c].pc.EnsureWriteConfigMap? {
      EnsureAddsNothing(w, c, touch);
    } else {
      RevokeAddsNothing(w, c, touch);
    }
  }

  lemma EnsureAddsNothing(w: World, c: nat, touch: bool)
    requires Running(w, c) && ClientCopies(w.cluster, w.clients[c])
    requires (w.clients[c].pc.EnsureWriteSecret? && w.clients[c].op.EnsureSecret?)
          || (w.clients[c].pc.EnsureWriteConfigMap? && w.clients[c].op.EnsureConfigMap?)
    ensures var w' := AfterCall(w, c, touch);
      && w'.minted == w.minted
      && (forall m :: m in w'.cluster.secrets ==> w'.cluster.secrets[m].data.Items <= Credentials(w.cluster, m).Items)
      && (forall m :: m in w'.cluster.configMaps ==>
          w'.cluster.configMaps[m].data.Items <= Metadata(w.cluster, m).Items)
  {}

  lemma RevokeAddsNothing(w: World, c: nat, touch: bool)
    requires Running(w, c) && ClientCopies(w.cluster, w.clients[c])
    requires !w.clients[c].pc.EnsureWriteSecret? && !w.clients[c].pc.EnsureWriteConfigMap?
    requires w.clients[c].pc.WriteSecret? || w.clients[c].pc.ForgetKey? ==>
      w.clients[c].op.Revoke? || w.clients[c].op.Delete?
    requires w.clients[c].pc.EnsureRead? ==> w.clients[c].op.EnsureSecret? || w.clients[c].op.EnsureConfigMap?
    ensures var w' := AfterCall(w, c, touch);
      && w'.minted == w.minted
      && (forall m :: m in w'.cluster.secrets ==> w'.cluster.secrets[m].data.Items <= Credentials(w.cluster, m).Items)
      && (forall m :: m in w'.cluster.configMaps ==>
          w'.cluster.configMaps[m].data.Items <= Metadata(w.cluster, m).Items)
  {}

  lemma CallKeepsBoth(env: Env, w: World, c: nat, touch: bool)
    requires Inv(env, w) && Enabled(env, w, Call(c, touch))
    ensures GoodSecrets(env, AfterCall(w, c, touch)) && GoodMetadata(env, AfterCall(w, c, touch))
  {
    hide AfterCall, GoodSecrets, GoodMetadata, GoodClients, Copies;
    CallAddsNothing(env, w, c, touch);
    FewerCredentialsGood(env, w, AfterCall(w, c, touch));
    FewerEntriesGood(env, w, AfterCall(w, c, touch));
  }

  lemma MintKeepsSecrets(env: Env, w: World, a: Action)
    requires Inv(env, w) && Enabled(env, w, a) && a.Mint?
    ensures GoodSecrets(env, Next(env, w, a))
  {
    assert ClientCopies(w.cluster, w.clients[a.c]);
    assert GoodClient(env, w.minted, w.clients[a.c]);
    var w' := Next(env, w, a);
    forall m, id | m in w'.cluster.secrets && id in w'.cluster.secrets[m].data
      ensures GoodCredential(env, w'.minted, m, id, w'.cluster.secrets[m].data[id])
    {
      if m in w.cluster.secrets && id in w.cluster.secrets[m].data {
        assert GoodCredential(env, w.minted, m, id, w.cluster.secrets[m].data[id]);
      }
    }
  }

  lemma SecretsKept(env: Env, w: World, a: Action)
    requires Inv(env, w) && Enabled(env, w, a)
    requires !a.ReplyLost?
    ensures GoodSecrets(env, Next(env, w, a))
  {
    hide AfterCall;
    match a
    case Call(c, touch) => CallKeepsBoth(env, w, c, touch);
    case Mint(_, _, _, _) => MintKeepsSecrets(env, w, a);
    case _ =>
  }

  lemma RecordKeepsMetadata(env: Env, w: World, a: Action)
    requires Inv(env, w) && Enabled(env, w, a) && a.Record?
    ensures GoodMetadata(env, Next(env, w, a))
  {
    assert ClientCopies(w.cluster, w.clients[a.c]);
    assert GoodClient(env, w.minted, w.clients[a.c]);
  }

  lemma MetadataKept(env: Env, w: World, a: Action)
    requires Inv(env, w) && Enabled(env, w, a)
    requires !a.ReplyLost?
    ensures GoodMetadata(env, Next(env, w, a))
  {
    hide AfterCall;
    match a
    case Call(c, touch) => CallKeepsBoth(env, w, c, touch);
    case Record(_, _, _) => RecordKeepsMetadata(env, w, a);
    case _ =>
  }

  lemma ListGood(env: Env, w: World, c: nat, entry: Option<string>)
    requires Inv(env, w) && Enabled(env, w, List(c, entry))
    ensures GoodClient(env, w.minted, AfterList(w, c, entry).clients[c])
  {
    assert GoodClient(env, w.minted, w.clients[c]);
    if entry.Some? {
      assert GoodInfo(env, w.clients[c].op.model, entry.value, Metadata(w.cluster, w.clients[c].op.model)[entry.value]);
    }
  }

  lemma CallGood(env: Env, w: World, c: nat, touch: bool)
    requires Inv(env, w) && Enabled(env, w, Call(c, touch))
    ensures AfterCall(w, c, touch).minted == w.minted
    ensures GoodClient(env, w.minted, AfterCall(w, c, touch).clients[c])
  {
    assert GoodClient(env, w.minted, w.clients[c]);
  }

  lemma MintGood(env: Env, w: World, c: nat, sequence: nat, key: ApiKey, touch: bool)
    requires Inv(env, w) && Enabled(env, w, Mint(c, sequence, key, touch))
    ensures var w' := AfterMint(env, w, c, sequence, key, touch); GoodClient(env, w'.minted, w'.clients[c])
  {
    assert GoodClient(env, w.minted, w.clients[c]);
  }

  lemma ClientStaysGood(env: Env, w: World, a: Action, cl: Client)
    requires Enabled(env, w, a) && GoodClient(env, w.minted, cl)
    requires !a.ReplyLost?
    ensures GoodClient(env, Next(env, w, a).minted, cl)
  {}

  lemma ActorGood(env: Env, w: World, a: Action, c: nat)
    requires Inv(env, w) && Enabled(env, w, a) && Actor(a) == Some(c)
    requires !a.ReplyLost?
    ensures GoodClient(env, Next(env, w, a).minted, Next(env, w, a).clients[c])
  {
    hide AfterCall, AfterMint, IsNextSequence;
    match a
    case Begin(_, _) =>
    case List(_, entry) => ListGood(env, w, c, entry);
    case Call(_, touch) => CallGood(env, w, c, touch);
    case Mint(_, sequence, key, touch) => MintGood(env, w, c, sequence, key, touch);
    case Record(_, _, _) => assert GoodClient(env, w.minted, w.clients[c]);
    case Fault(_) => assert GoodClient(env, w.minted, w.clients[c]);
    case _ =>
  }

  lemma ClientsKept(env: Env, w: World, a: Action)
    requires Inv(env, w) && Enabled(env, w, a)
    requires !a.ReplyLost?
    ensures GoodClients(env, Next(env, w, a))
  {
    var w' := Next(env, w, a);
    forall c | c in w'.clients ensures GoodClient(env, w'.minted, w'.clients[c]) {
      if Actor(a) == Some(c) {
        ActorGood(env, w, a, c);
      } else {
        OnlyActorMoves(env, w, a, c);
        ClientStaysGood(env, w, a, w.clients[c]);
      }
    }
  }

  /** A write whose reply is lost is the same write, heard of by nobody. */
  function LastWrite(w: World, a: Action): Action
    requires a.ReplyLost?
  {
    if a.c in w.clients && w.clients[a.c].pc.RecordKey? then Record(a.c, a.now, a.touch) else Call(a.c, a.touch)
  }

  lemma LostIsUnheard(env: Env, w: World, a: Action)
    requires Enabled(env, w, a) && a.ReplyLost?
    ensures Enabled(env, w, LastWrite(w, a)) && a.c in Next(env, w, LastWrite(w, a)).clients
    ensures Next(env, w, a) == Unheard(Next(env, w, LastWrite(w, a)), a.c)
  {
    hide AfterCall, AfterRecord, IsNextSequence;
  }

  lemma UnheardKeepsInv(env: Env, w: World, c: nat)
    requires Inv(env, w) && c in w.clients
    ensures Inv(env, Unheard(w, c))
  {
    var w' := Unheard(w, c);
    assert GoodClient(env, w.minted, w.clients[c]);
    forall d | d in w'.clients
      ensures ClientCopies(w'.cluster, w'.clients[d]) && GoodClient(env, w'.minted, w'.clients[d]) {
      if d != c { assert ClientCopies(w.cluster, w.clients[d]) && GoodClient(env, w.minted, w.clients[d]); }
    }
  }

  lemma StepKeepsInv(env: Env, w: World, a: Action)
    requires Inv(env, w) && Enabled(env, w, a)
    ensures Inv(env, Next(env, w, a))
  {
    hide Next, Enabled, Inv;
    if a.ReplyLost? {
      LostIsUnheard(env, w, a);
      HeardStepKeepsInv(env, w, LastWrite(w, a));
      UnheardKeepsInv(env, Next(env, w, LastWrite(w, a)), a.c);
    } else {
      HeardStepKeepsInv(env, w, a);
    }
  }

  lemma HeardStepKeepsInv(env: Env, w: World, a: Action)
    requires Inv(env, w) && Enabled(env, w, a) && !a.ReplyLost?
    ensures Inv(env, Next(env, w, a))
  {
    CopiesKept(env, w, a);
    SecretsKept(env, w, a);
    MetadataKept(env, w, a);
    ClientsKept(env, w, a);
  }
}
