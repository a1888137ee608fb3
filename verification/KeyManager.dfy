/** The key-manager's calls in their own form, against an API server that other writers use at the
    same time (key-manager/internal/secrets/manager.go).

    Between any two requests of a call, `OtherWriters` lets everybody else take any number of
    ledger steps.  Each call is proved to be a run of the ledger's steps, so whatever LedgerRuns
    says of all interleavings holds of this code. */
module KeyManager {
  import opened Wrappers
  import opened ClientIds
  import opened Ledger
  import opened LedgerRuns

  // ---------- the API server ----------

  datatype Reply<+T> = Ok(value: T) | Err(failure: Failure)

  /** Get and Update on the two kinds of object.  Any request may also fail for reasons of its own.  A
      failed Update has changed nothing, or it was served and its reply got lost: then `lost` says
      with which version. */
  class ApiServer {
    var cluster: Cluster
    ghost var failures: nat // requests that failed for reasons of their own, replies lost included

    constructor (k: Cluster)
      ensures cluster == k && failures == 0
    {
      cluster, failures := k, 0;
    }

    method GetSecret(model: string) returns (r: Reply<Object<ApiKey>>)
      modifies this`failures
      ensures failures == old(failures) + if r == Err(OtherError) then 1 else 0
      ensures r.Ok? ==> model in cluster.secrets && r.value == cluster.secrets[model]
      ensures r.Err? && r.failure != OtherError ==> r.failure == ObjectNotFound && model !in cluster.secrets
    {
      if * {
        failures := failures + 1;
        return Err(OtherError);
      }
      r := if model in cluster.secrets then Ok(cluster.secrets[model]) else Err(ObjectNotFound);
    }

    method GetConfigMap(model: string) returns (r: Reply<Object<KeyInfo>>)
      modifies this`failures
      ensures failures == old(failures) + if r == Err(OtherError) then 1 else 0
      ensures r.Ok? ==> model in cluster.configMaps && r.value == cluster.configMaps[model]
      ensures r.Err? && r.failure != OtherError ==> r.failure == ObjectNotFound && model !in cluster.configMaps
    {
      if * {
        failures := failures + 1;
        return Err(OtherError);
      }
      r := if model in cluster.configMaps then Ok(cluster.configMaps[model]) else Err(ObjectNotFound);
    }

    method ListConfigMaps() returns (r: Reply<map<string, Object<KeyInfo>>>)
      modifies this`failures
      ensures failures == old(failures) + if r == Err(OtherError) then 1 else 0
      ensures r.Ok? ==> r.value == cluster.configMaps
      ensures r.Err? ==> r.failure == OtherError
    {
      if * {
        failures := failures + 1;
        return Err(OtherError);
      }
      r := Ok(cluster.configMaps);
    }

    method UpdateSecret(model: string, o: Object<ApiKey>) returns (r: Reply<bool>, ghost lost: Option<bool>)
      modifies this
      ensures failures == old(failures) + if r == Err(OtherError) then 1 else 0
      ensures r.Ok? ==> AcceptsSecret(old(cluster), model, o, r.value, cluster) && lost.None?
      ensures r.Err? ==> match lost
        case Some(touch) => r.failure == OtherError && AcceptsSecret(old(cluster), model, o, touch, cluster)
        case None => cluster == old(cluster)
      ensures r.Err? && r.failure != OtherError ==>
        if model !in old(cluster.secrets) then r.failure == ObjectNotFound
        else r.failure == Conflict && old(cluster.secrets)[model].version != o.version
    {
      if * {
        failures := failures + 1;
        return Err(OtherError), None;
      }
      if model !in cluster.secrets { return Err(ObjectNotFound), None; }
      if cluster.secrets[model].version != o.version { return Err(Conflict), None; }
      var touch: bool := *;
      cluster := PutSecret(cluster, model, o.data, o.labels, touch);
      if * {
        failures := failures + 1;
        return Err(OtherError), Some(touch);
      }
      return Ok(touch), None;
    }

    method UpdateConfigMap(model: string, o: Object<KeyInfo>) returns (r: Reply<bool>, ghost lost: Option<bool>)
      modifies this
      ensures failures == old(failures) + if r == Err(OtherError) then 1 else 0
      ensures r.Ok? ==> AcceptsConfigMap(old(cluster), model, o, r.value, cluster) && lost.None?
      ensures r.Err? ==> match lost
        case Some(touch) => r.failure == OtherError && AcceptsConfigMap(old(cluster), model, o, touch, cluster)
        case None => cluster == old(cluster)
      ensures r.Err? && r.failure != OtherError ==>
        if model !in old(cluster.configMaps) then r.failure == ObjectNotFound
        else r.failure == Conflict && old(cluster.configMaps)[model].version != o.version
    {
      if * {
        failures := failures + 1;
        return Err(OtherError), None;
      }
      if model !in cluster.configMaps { return Err(ObjectNotFound), None; }
      if cluster.configMaps[model].version != o.version { return Err(Conflict), None; }
      var touch: bool := *;
      cluster := PutConfigMap(cluster, model, o.data, o.labels, touch);
      if * {
        failures := failures + 1;
        return Err(OtherError), Some(touch);
      }
      return Ok(touch), None;
    }
  }

  predicate AcceptsSecret(k: Cluster, model: string, o: Object<ApiKey>, touch: bool, k': Cluster) {
    model in k.secrets && k.secrets[model].version == o.version && k' == PutSecret(k, model, o.data, o.labels, touch)
  }

  predicate AcceptsConfigMap(k: Cluster, model: string, o: Object<KeyInfo>, touch: bool, k': Cluster) {
    model in k.configMaps && k.configMaps[model].version == o.version
        && k' == PutConfigMap(k, model, o.data, o.labels, touch)
  }

  // ---------- the manager ----------

  /** Where an attempt that ended in an error leaves the call: a conflict is retried. */
  function AfterError(attempt: nat, f: Failure): Pc {
    if f == Conflict then Retry(attempt) else Done(Failed(f))
  }

  datatype CreateResult = CreateResult(clientId: string, apiKey: ApiKey)

  class Manager {
    const env: Env
    const server: ApiServer
    var entropy: nat          // stands for the random generator: tokens below it may have been given out
    ghost var world: World    // the ledger this manager is one of the writers of
    ghost var dry: nat        // how often the random generator failed

    ghost predicate Valid()
      reads this, server
    {
      && ValidEnv(env)
      && world.cluster == server.cluster
      && forall k :: k in world.minted ==> k.token < entropy
    }

    /** How many of this manager's requests and generations have failed. */
    ghost function Faults(): nat
      reads this, server
    {
      server.failures + dry
    }

    /** A manager joins a ledger that may long be under way. */
    constructor (env: Env, server: ApiServer, entropy: nat, ghost world: World)
      requires ValidEnv(env) && world.cluster == server.cluster
      requires forall k :: k in world.minted ==> k.token < entropy
      ensures Valid() && this.env == env && this.server == server && this.world == world
    {
      this.env, this.server, this.entropy, this.world, this.dry := env, server, entropy, world, 0;
    }

    /** The rest of the world: it may take any number of steps, but none of call `c`'s. */
    method OtherWriters(ghost c: nat)
      requires Valid() && c in world.clients
      modifies this, server
      ensures Valid()
      ensures Reaches(env, old(world), world)
      ensures c in world.clients && world.clients[c] == old(world.clients[c])
      ensures Faults() == old(Faults())
    {
      ReachesSelf(env, world);
    }

    /** 24 random bytes: a key that was never given out before, or an error. */
    method GenerateAPIKey() returns (r: Reply<ApiKey>)
      requires Valid()
      modifies this`entropy, this`dry
      ensures Valid()
      ensures dry == old(dry) + if r.Err? then 1 else 0
      ensures r.Ok? ==> r.value !in world.minted && forall k :: k in world.minted || k == r.value ==> k.token < entropy
      ensures r.Err? ==> r.failure == OtherError
    {
      if * {
        dry := dry + 1;
        return Err(OtherError);
      }
      r := Ok(ApiKey(entropy));
      entropy := entropy + 1;
    }

    /** Call `c` takes ledger step `a`. */
    ghost method Step(a: Action, start: World)
      requires Reaches(env, start, world) && Enabled(env, world, a)
      modifies this`world
      ensures world == Next(env, old(world), a)
      ensures Reaches(env, start, world)
    {
      ReachesStep(env, start, world, a);
      world := Next(env, world, a);
    }

    /** Everybody else, as a stretch of the run that began at `start`. */
    method Yield(ghost c: nat, ghost start: World)
      requires Valid() && c in world.clients && Reaches(env, start, world)
      modifies this, server
      ensures Valid() && Reaches(env, start, world)
      ensures c in world.clients && world.clients[c] == old(world.clients[c])
      ensures Faults() == old(Faults())
    {
      ghost var before := world;
      OtherWriters(c);
      ReachesTransitive(env, start, before, world);
    }

    /** The two reads that open an attempt. */
    method ReadBoth(ghost c: nat, modelName: string) returns (r: Reply<(Object<ApiKey>, Object<KeyInfo>)>)
      requires Valid() && Running(world, c) && world.clients[c].pc.ReadSecret?
          && ModelOf(world.clients[c].op) == modelName
      modifies this, server
      ensures Faults() >= old(Faults()) && (r == Err(OtherError) ==> Faults() > old(Faults()))
      ensures Valid() && Reaches(env, old(world), world) && c in world.clients
      ensures match r
        case Ok((secret, cm)) =>
          world.clients[c] == old(world.clients[c]).(pc := WriteSecret(old(world.clients[c].pc.attempt), secret, cm))
        case Err(f) => f != Conflict && world.clients[c] == old(world.clients[c]).(pc := Done(Failed(f)))
    {
      ghost var start := world;
      ReachesSelf(env, world);
      Yield(c, start);
      var secret := server.GetSecret(modelName);
      if secret.Err? {
        Step(if secret.failure == OtherError then Fault(c) else Call(c, false), start);
        return Err(secret.failure);
      }
      Step(Call(c, false), start);
      Yield(c, start);
      var cm := server.GetConfigMap(modelName);
      if cm.Err? {
        Step(if cm.failure == OtherError then Fault(c) else Call(c, false), start);
        return Err(cm.failure);
      }
      Step(Call(c, false), start);
      r := Ok((secret.value, cm.value));
    }

    /** Writes a generated key to the Secret. */
    method StoreCredential(ghost c: nat, p: Principal, secret: Object<ApiKey>, ghost cm: Object<KeyInfo>,
                           ghost sequence: nat, clientId: string, key: ApiKey)
      returns (r: Reply<()>)
      requires Valid() && c in world.clients && world.clients[c].op.Create? && world.clients[c].op.principal == p
      requires world.clients[c].pc.WriteSecret? && world.clients[c].pc.secret == secret && world.clients[c].pc.cm == cm
      requires key !in world.minted && key.token < entropy && clientId == ClientId(env.hash, p, sequence)
      requires IsNextSequence(env.hash, p, secret.data.Keys, cm.data.Keys, sequence)
      modifies this, server
      ensures Faults() >= old(Faults()) && (r == Err(OtherError) ==> Faults() > old(Faults()))
      ensures Valid() && Reaches(env, old(world), world)
      ensures c in world.clients && world.clients[c].op == old(world.clients[c].op)
      ensures match r
        case Ok(_) => world.clients[c].pc == RecordKey(old(world.clients[c].pc.attempt), cm, clientId, key)
        case Err(f) => world.clients[c].pc == AfterError(old(world.clients[c].pc.attempt), f)
    {
      hide AfterCall, AfterRecord, AfterList, Reaches, IsNextSequence, ClientId;
      ghost var start := world;
      ReachesSelf(env, world);
      var wrote, lost := server.UpdateSecret(p.model, secret.(data := secret.data[clientId := key]));
      if wrote == Err(OtherError) {
        if lost.Some? { Step(Mint(c, sequence, key, lost.value), start); }
        Step(Fault(c), start);
        return Err(OtherError);
      }
      Step(Mint(c, sequence, key, wrote.Ok? && wrote.value), start);
      if wrote.Err? { return Err(wrote.failure); }
      r := Ok(());
    }

    /** Probes for a free identifier, generates a key, and writes it to the Secret. */
    method WriteCredential(ghost c: nat, p: Principal, secret: Object<ApiKey>, cm: Object<KeyInfo>)
      returns (r: Reply<CreateResult>)
      requires Valid() && c in world.clients && world.clients[c].op.Create? && world.clients[c].op.principal == p
      requires world.clients[c].pc.WriteSecret? && world.clients[c].pc.secret == secret && world.clients[c].pc.cm == cm
      modifies this, server
      ensures Faults() >= old(Faults()) && (r == Err(OtherError) ==> Faults() > old(Faults()))
      ensures Valid() && Reaches(env, old(world), world)
      ensures c in world.clients && world.clients[c].op == old(world.clients[c].op)
      ensures match r
        case Ok(res) => world.clients[c].pc == RecordKey(old(world.clients[c].pc.attempt), cm, res.clientId, res.apiKey)
        case Err(f) => world.clients[c].pc == AfterError(old(world.clients[c].pc.attempt), f)
    {
      hide AfterCall, AfterRecord, AfterList, Reaches, IsNextSequence, ClientId;
      ghost var start := world;
      ReachesSelf(env, world);
      var sequence, clientId := ProbeSequence(env.hash, p, secret.data.Keys, cm.data.Keys);
      Yield(c, start);
      var key := GenerateAPIKey();
      if key.Err? {
        Step(Fault(c), start);
        return Err(OtherError);
      }
      ghost var middle := world;
      var wrote := StoreCredential(c, p, secret, cm, sequence, clientId, key.value);
      ReachesTransitive(env, start, middle, world);
      if wrote.Err? { return Err(wrote.failure); }
      r := Ok(CreateResult(clientId, key.value));
    }

    method CreateKeyOnce(ghost c: nat, modelName: string, username: string, description: string, now: int)
      returns (r: Reply<CreateResult>)
      requires Valid() && Running(world, c) && world.clients[c].pc.ReadSecret?
      requires world.clients[c].op == Create(Principal(username, modelName), description)
      modifies this, server
      ensures Faults() >= old(Faults()) && (r == Err(OtherError) ==> Faults() > old(Faults()))
      ensures Valid() && Reaches(env, old(world), world)
      ensures c in world.clients && world.clients[c].op == old(world.clients[c].op)
      ensures match r
        case Ok(res) => world.clients[c].pc == Done(Created(res.clientId, res.apiKey))
        case Err(f) => world.clients[c].pc == AfterError(old(world.clients[c].pc.attempt), f)
    {
      hide AfterMint, AfterCall, AfterList, Reaches, IsNextSequence;
      ghost var start := world;
      var read := ReadBoth(c, modelName);
      if read.Err? { return Err(read.failure); }
      ghost var middle := world;
      r := WriteCredential(c, Principal(username, modelName), read.value.0, read.value.1);
      ReachesTransitive(env, start, middle, world);
      if r.Err? { return; }
      Yield(c, start);
      var cm := read.value.1;
      var info := KeyInfo(r.value.clientId, username, description, now, modelName, env.namespace);
      var noted, lost := server.UpdateConfigMap(modelName, cm.(data := cm.data[r.value.clientId := info]));
      if noted == Err(OtherError) {
        Step(if lost.Some? then ReplyLost(c, now, lost.value) else Fault(c), start);
        return Err(OtherError);
      }
      Step(Record(c, now, noted.Ok? && noted.value), start);
      if noted.Err? { return Err(noted.failure); }
    }

    /** CreateKey is a run of the ledger in which call `c` comes to exactly the outcome that is
        returned: a success is a credential written and recorded, an error an error. */
    method CreateKey(ghost c: nat, modelName: string, username: string, description: string, now: int)
      returns (r: Reply<CreateResult>)
      requires Valid() && c !in world.clients && Principal(username, modelName) in env.principals
      modifies this, server
      ensures Faults() >= old(Faults()) && (r == Err(OtherError) ==> Faults() > old(Faults()))
      ensures Valid() && Reaches(env, old(world), world)
      ensures c in world.clients && world.clients[c].op == Create(Principal(username, modelName), description)
      ensures username == "" ==> r == Err(UsernameRequired)
      ensures match r
        case Ok(res) => world.clients[c].pc == Done(Created(res.clientId, res.apiKey))
        case Err(f) => world.clients[c].pc == Done(Failed(f))
    {
      ghost var start := world;
      ReachesSelf(env, world);
      Step(Begin(c, Create(Principal(username, modelName), description)), start);
      if username == "" { return Err(UsernameRequired); }
      var attempt := 0;
      while attempt < MAX_RETRIES
        invariant attempt <= MAX_RETRIES
        invariant Valid() && Reaches(env, start, world) && Faults() >= old(Faults())
        invariant c in world.clients && world.clients[c].op == Create(Principal(username, modelName), description)
        invariant world.clients[c].pc
               == if attempt < MAX_RETRIES then ReadSecret(attempt) else Done(Failed(TooManyConflicts))
      {
        ghost var before := world;
        var once := CreateKeyOnce(c, modelName, username, description, now);
        ReachesTransitive(env, start, before, world);
        if once.Ok? || once.failure != Conflict { return once; }
        attempt := attempt + 1;
      }
      r := Err(TooManyConflicts);
    }

    /** Checks that the key exists and removes it from the Secret. */
    method RemoveCredential(ghost c: nat, modelName: string, clientId: string, secret: Object<ApiKey>,
                            ghost cm: Object<KeyInfo>)
      returns (r: Reply<()>)
      requires Valid() && Running(world, c) && Revokes(world.clients[c].op, modelName, clientId)
      requires world.clients[c].pc.WriteSecret? && world.clients[c].pc.secret == secret && world.clients[c].pc.cm == cm
      modifies this, server
      ensures Faults() >= old(Faults()) && (r == Err(OtherError) ==> Faults() > old(Faults()))
      ensures Valid() && Reaches(env, old(world), world)
      ensures c in world.clients && world.clients[c].op == old(world.clients[c].op)
      ensures match r
        case Ok(_) => world.clients[c].pc == ForgetKey(old(world.clients[c].pc.attempt), cm)
        case Err(f) => world.clients[c].pc == AfterError(old(world.clients[c].pc.attempt), f)
    {
      hide AfterMint, AfterRecord, AfterList, Reaches, IsNextSequence;
      ghost var start := world;
      ReachesSelf(env, world);
      if clientId !in secret.data {
        Step(Call(c, false), start);
        return Err(KeyNotFound);
      }
      Yield(c, start);
      var wrote, unheard := server.UpdateSecret(modelName, secret.(data := secret.data - {clientId}));
      if wrote == Err(OtherError) {
        if unheard.Some? { Step(Call(c, unheard.value), start); }
        Step(Fault(c), start);
        return Err(OtherError);
      }
      Step(Call(c, wrote.Ok? && wrote.value), start);
      if wrote.Err? { return Err(wrote.failure); }
      r := Ok(());
    }

    method RevokeKeyOnce(ghost c: nat, modelName: string, clientId: string) returns (r: Reply<()>)
      requires Valid() && Running(world, c) && world.clients[c].pc.ReadSecret?
      requires Revokes(world.clients[c].op, modelName, clientId)
      modifies this, server
      ensures Faults() >= old(Faults()) && (r == Err(OtherError) ==> Faults() > old(Faults()))
      ensures Valid() && Reaches(env, old(world), world)
      ensures c in world.clients && world.clients[c].op == old(world.clients[c].op)
      ensures match r
        case Ok(_) => world.clients[c].pc == Done(Revoked)
        case Err(f) => world.clients[c].pc == AfterError(old(world.clients[c].pc.attempt), f)
    {
      hide AfterMint, AfterRecord, AfterList, Reaches, IsNextSequence;
      ghost var start := world;
      var read := ReadBoth(c, modelName);
      if read.Err? { return Err(read.failure); }
      var secret, cm := read.value.0, read.value.1;

      ghost var middle := world;
      r := RemoveCredential(c, modelName, clientId, secret, cm);
      ReachesTransitive(env, start, middle, world);
      if r.Err? { return; }

      Yield(c, start);
      cm := cm.(data := cm.data - {clientId});
      var noted, lost := server.UpdateConfigMap(modelName, cm);
      if noted == Err(OtherError) {
        Step(if lost.Some? then ReplyLost(c, 0, lost.value) else Fault(c), start);
        return Err(OtherError);
      }
      Step(Call(c, noted.Ok? && noted.value), start);
      if noted.Err? { return Err(noted.failure); }
      r := Ok(());
    }

    /** The retry loop of RevokeKey, for a call that is about to read. */
    method RevokeKey(ghost c: nat, modelName: string, clientId: string) returns (r: Reply<()>)
      requires Valid() && c in world.clients && world.clients[c].pc == ReadSecret(0)
      requires Revokes(world.clients[c].op, modelName, clientId)
      modifies this, server
      ensures Faults() >= old(Faults()) && (r == Err(OtherError) ==> Faults() > old(Faults()))
      ensures Valid() && Reaches(env, old(world), world)
      ensures c in world.clients && world.clients[c].op == old(world.clients[c].op)
      ensures match r
        case Ok(_) => world.clients[c].pc == Done(Revoked)
        case Err(f) => world.clients[c].pc == Done(Failed(f))
    {
      ghost var start := world;
      ReachesSelf(env, world);
      var attempt := 0;
      while attempt < MAX_RETRIES
        invariant attempt <= MAX_RETRIES
        invariant Valid() && Reaches(env, start, world) && Faults() >= old(Faults())
        invariant c in world.clients && world.clients[c].op == old(world.clients[c].op)
        invariant world.clients[c].pc
               == if attempt < MAX_RETRIES then ReadSecret(attempt) else Done(Failed(TooManyConflicts))
      {
        ghost var before := world;
        var once := RevokeKeyOnce(c, modelName, clientId);
        ReachesTransitive(env, start, before, world);
        if once.Ok? || once.failure != Conflict { return once; }
        attempt := attempt + 1;
      }
      r := Err(TooManyConflicts);
    }

    /** The handler's search among the listed entries, in an order that is not fixed. */
    static method FindKey(keys: map<string, KeyInfo>, clientId: string, namespace: string)
      returns (found: Option<string>)
      ensures match found
        case Some(k) => k in keys && keys[k].clientId == clientId && keys[k].namespace == namespace
        case None => forall k :: k in keys ==> !(keys[k].clientId == clientId && keys[k].namespace == namespace)
    {
      var rest := keys.Keys;
      while rest != {}
        invariant rest <= keys.Keys
        invariant forall k :: k in keys && k !in rest ==>
                    !(keys[k].clientId == clientId && keys[k].namespace == namespace)
        decreases |rest|
      {
        var k :| k in rest;
        rest := rest - {k};
        if keys[k].clientId == clientId && keys[k].namespace == namespace { return Some(k); }
      }
      return None;
    }

    /** The DELETE handler: list, look for the entry, check its owner, revoke. */
    method DeleteKey(ghost c: nat, user: string, namespace: string, modelName: string, clientId: string)
      returns (r: Reply<()>)
      requires Valid() && c !in world.clients
      modifies this, server
      ensures Faults() >= old(Faults()) && (r == Err(OtherError) ==> Faults() > old(Faults()))
      ensures Valid() && Reaches(env, old(world), world)
      ensures c in world.clients && world.clients[c].op == Delete(user, namespace, modelName, clientId)
      ensures match r
        case Ok(_) => world.clients[c].pc == Done(Revoked)
        case Err(f) => world.clients[c].pc == Done(Failed(f))
    {
      hide AfterCall, AfterMint, AfterRecord, Reaches, IsNextSequence;
      ghost var start := world;
      ReachesSelf(env, world);
      Step(Begin(c, Delete(user, namespace, modelName, clientId)), start);
      Yield(c, start);
      var cm := server.GetConfigMap(modelName);
      if cm == Err(OtherError) {
        Step(Fault(c), start);
        return Err(OtherError);
      }
      if cm.Err? {
        assert Metadata(world.cluster, modelName) == map[];
        Step(List(c, None), start);
        return Err(ObjectNotFound);
      }
      var keys := cm.value.data;
      var found := FindKey(keys, clientId, namespace);
      Step(List(c, found), start);
      if found.None? { return Err(KeyNotFound); }
      if keys[found.value].creator != user { return Err(Forbidden); }
      ghost var before := world;
      r := RevokeKey(c, modelName, clientId);
      ReachesTransitive(env, start, before, world);
    }

    /** Every entry the user created, in every labelled metadata ConfigMap; `places` says where each
        was found. */
    method ListKeysForUser(username: string) returns (r: Reply<seq<KeyInfo>>, ghost places: seq<(string, string)>)
      modifies server`failures
      ensures r.Err? ==> r.failure == OtherError && server.failures > old(server.failures)
      ensures r.Ok? ==> FoundAt(server.cluster.configMaps, places, r.value)
      ensures r.Ok? ==> forall m, id :: (m, id) in places <==> ListedFor(server.cluster, username, m, id)
    {
      places := [];
      var all := server.ListConfigMaps();
      if all.Err? { return Err(OtherError), []; }
      var result: seq<KeyInfo> := [];
      var models := all.value.Keys;
      while models != {}
        invariant models <= all.value.Keys
        invariant FoundAt(all.value, places, result)
        invariant forall m, id :: (m, id) in places <==> m !in models && ListedFor(server.cluster, username, m, id)
        decreases |models|
      {
        var model :| model in models;
        models := models - {model};
        var cm := all.value[model];
        if MODEL_NAME_LABEL !in cm.labels { continue; }
        var ids := cm.data.Keys;
        while ids != {}
          invariant ids <= cm.data.Keys
          invariant FoundAt(all.value, places, result)
          invariant forall m, id :: (m, id) in places <==>
            m !in models && (m == model ==> id !in ids) && ListedFor(server.cluster, username, m, id)
          decreases |ids|
        {
          var id :| id in ids;
          ids := ids - {id};
          if cm.data[id].creator == username {
            result, places := result + [cm.data[id]], places + [(model, id)];
          }
        }
      }
      r := Ok(result);
    }
  }

  const MODEL_NAME_LABEL := "llm.nebari.dev/model-name"

  predicate ListedFor(k: Cluster, user: string, m: string, id: string) {
    && m in k.configMaps && MODEL_NAME_LABEL in k.configMaps[m].labels
    && id in k.configMaps[m].data && k.configMaps[m].data[id].creator == user
  }

  /** `infos` shows the entries at `places`, which are distinct. */
  ghost predicate FoundAt(configMaps: map<string, Object<KeyInfo>>, places: seq<(string, string)>,
                          infos: seq<KeyInfo>) {
    && |places| == |infos|
    && (forall i | 0 <= i < |places| ::
          places[i].0 in configMaps && places[i].1 in configMaps[places[i].0].data
          && infos[i] == configMaps[places[i].0].data[places[i].1])
    && forall i, j | 0 <= i < j < |places| :: places[i] != places[j]
  }

  /** A user is shown a key that is in force exactly when it was generated for that user, wherever
      the entry is there to be shown. */
  lemma ShownToItsHolder(env: Env, w: World, user: string, m: string, id: string)
    requires ValidEnv(env) && Inv(env, w)
    requires id in Credentials(w.cluster, m) && id in Metadata(w.cluster, m)
    requires MODEL_NAME_LABEL in w.cluster.configMaps[m].labels
    ensures Credentials(w.cluster, m)[id] in w.minted
    ensures ListedFor(w.cluster, user, m, id)
       <==> w.minted[Credentials(w.cluster, m)[id]].principal == Principal(user, m)
  {
    MetadataNamesTheHolder(env, w, m, id);
  }
}
