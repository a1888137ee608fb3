/** What every interleaving of the ledger's writers guarantees. */
module LedgerRuns {
  import opened Wrappers
  import opened ClientIds
  import opened Ledger

  /** `acts[i]` leads from `ws[i]` to `ws[i + 1]`. */
  ghost predicate IsPath(env: Env, ws: seq<World>, acts: seq<Action>) {
    && |ws| == |acts| + 1
    && forall i :: 0 <= i < |acts| ==> Enabled(env, ws[i], acts[i]) && ws[i + 1] == Next(env, ws[i], acts[i])
  }

  /** A run starts with the empty cluster. */
  ghost predicate IsRun(env: Env, ws: seq<World>, acts: seq<Action>) {
    IsPath(env, ws, acts) && Initial(ws[0])
  }

  lemma {:induction false} InvAlways(env: Env, ws: seq<World>, acts: seq<Action>, i: nat)
    requires ValidEnv(env) && IsRun(env, ws, acts) && i < |ws|
    ensures Inv(env, ws[i])
  {
    hide Next, Enabled, Inv;
    if i == 0 {
      InitialInv(env, ws[0]);
    } else {
      InvAlways(env, ws, acts, i - 1);
      StepKeepsInv(env, ws[i - 1], acts[i - 1]);
    }
  }

  // ---------- reachability ----------

  ghost predicate Reaches(env: Env, w: World, w': World) {
    exists ws, acts :: IsPath(env, ws, acts) && ws[0] == w && ws[|ws| - 1] == w'
  }

  lemma ReachesSelf(env: Env, w: World)
    ensures Reaches(env, w, w)
  {
    assert IsPath(env, [w], []);
    var ws := [w];
    assert ws[0] == w && ws[|ws| - 1] == w;
  }

  lemma ReachesStep(env: Env, w: World, w': World, a: Action)
    requires Reaches(env, w, w') && Enabled(env, w', a)
    ensures Reaches(env, w, Next(env, w', a))
  {
    var ws, acts :| IsPath(env, ws, acts) && ws[0] == w && ws[|ws| - 1] == w';
    var ws', acts' := ws + [Next(env, w', a)], acts + [a];
    forall i | 0 <= i < |acts'| ensures Enabled(env, ws'[i], acts'[i]) && ws'[i + 1] == Next(env, ws'[i], acts'[i]) {
      if i < |acts| { assert ws'[i] == ws[i] && acts'[i] == acts[i]; }
    }
    assert IsPath(env, ws', acts');
    assert ws'[0] == w && ws'[|ws'| - 1] == Next(env, w', a);
  }

  lemma ReachesTransitive(env: Env, u: World, v: World, w: World)
    requires Reaches(env, u, v) && Reaches(env, v, w)
    ensures Reaches(env, u, w)
  {
    var ws, acts :| IsPath(env, ws, acts) && ws[0] == u && ws[|ws| - 1] == v;
    var xs, bcts :| IsPath(env, xs, bcts) && xs[0] == v && xs[|xs| - 1] == w;
    var ys, ccts := ws + xs[1..], acts + bcts;
    forall i | 0 <= i < |ccts| ensures Enabled(env, ys[i], ccts[i]) && ys[i + 1] == Next(env, ys[i], ccts[i]) {
      if i < |acts| {
        assert ys[i] == ws[i] && ys[i + 1] == ws[i + 1] && ccts[i] == acts[i];
      } else {
        assert ys[i] == xs[i - |acts|] && ys[i + 1] == xs[i - |acts| + 1] && ccts[i] == bcts[i - |acts|];
      }
    }
    assert IsPath(env, ys, ccts);
    assert ys[0] == u && ys[|ys| - 1] == w;
  }

  /** What the calls of the key-manager reach from an empty cluster is the end of a run, so it
      satisfies the invariant and everything below. */
  lemma ReachesIsRun(env: Env, w0: World, w: World) returns (ws: seq<World>, acts: seq<Action>)
    requires ValidEnv(env) && Initial(w0) && Reaches(env, w0, w)
    ensures IsRun(env, ws, acts) && ws[0] == w0 && ws[|ws| - 1] == w
    ensures Inv(env, w)
  {
    ws, acts :| IsPath(env, ws, acts) && ws[0] == w0 && ws[|ws| - 1] == w;
    InvAlways(env, ws, acts, |ws| - 1);
  }

  // ---------- no credential is overwritten or lost ----------

  /** The step mints: a CreateKey for model `m` puts a key no one has held under an identifier the
      Secret did not have, and remembers it. */
  ghost predicate MintsOne(env: Env, w: World, a: Action, m: string) {
    && Enabled(env, w, a) && a.Mint? && w.clients[a.c].op.principal.model == m
    && var w' := Next(env, w, a);
       var id := ClientId(env.hash, w.clients[a.c].op.principal, a.sequence);
       && id !in Credentials(w.cluster, m) && id !in w.clients[a.c].pc.cm.data
       && a.key !in w.minted
       && Credentials(w'.cluster, m) == Credentials(w.cluster, m)[id := a.key]
       && w'.clients[a.c].added == w.clients[a.c].added + [id]
  }

  /** The step revokes: a RevokeKey removes the identifier it was called with, which was there. */
  ghost predicate RevokesOne(env: Env, w: World, a: Action, m: string) {
    && Enabled(env, w, a) && a.Call? && w.clients[a.c].pc.WriteSecret?
    && var op := w.clients[a.c].op;
       && Revokes(op, m, op.id)
       && op.id in Credentials(w.cluster, m)
       && Credentials(Next(env, w, a).cluster, m) == Credentials(w.cluster, m) - {op.id}
  }

  /** Whatever the step, and whatever else is under way, a model's credentials stay exactly as
      they are, or gain one fresh credential, or lose exactly the revoked one, or go with the
      model's Secret when the operator's finalizer deletes it. */
  lemma SecretStep(env: Env, w: World, a: Action, m: string)
    requires Inv(env, w) && Enabled(env, w, a)
    ensures
      || Credentials(Next(env, w, a).cluster, m) == Credentials(w.cluster, m)
      || MintsOne(env, w, a, m)
      || RevokesOne(env, w, a, m)
      || (a == DropSecret(m) && Credentials(Next(env, w, a).cluster, m) == map[])
  {
    hide AfterCall, AfterMint, AfterRecord, AfterList, Inv, IsNextSequence;
    match a
    case Call(c, touch) => SecretStepCall(env, w, c, touch, m);
    case Mint(_, _, _, _) => SecretStepMint(env, w, a, m);
    case Record(c, now, touch) => RecordLeavesSecrets(env, w, c, now, touch);
    case List(c, entry) => ListLeavesCluster(env, w, c, entry);
    case ReplyLost(_, _, _) => LostLeavesCredentials(env, w, a, m);
    case _ =>
  }

  lemma LostLeavesCredentials(env: Env, w: World, a: Action, m: string)
    requires Inv(env, w) && Enabled(env, w, a) && a.ReplyLost?
    ensures Credentials(Next(env, w, a).cluster, m) == Credentials(w.cluster, m)
  {
    LostIsUnheard(env, w, a);
    match LastWrite(w, a)
    case Call(c, touch) => SecretStepCall(env, w, c, touch, m);
    case Record(c, now, touch) => RecordLeavesSecrets(env, w, c, now, touch);
    case _ =>
  }

  lemma RecordLeavesSecrets(env: Env, w: World, c: nat, now: int, touch: bool)
    requires Enabled(env, w, Record(c, now, touch))
    ensures AfterRecord(env, w, c, now, touch).cluster.secrets == w.cluster.secrets
  {}

  lemma MintLeavesConfigMaps(env: Env, w: World, c: nat, sequence: nat, key: ApiKey, touch: bool)
    requires Enabled(env, w, Mint(c, sequence, key, touch))
    ensures AfterMint(env, w, c, sequence, key, touch).cluster.configMaps == w.cluster.configMaps
  {}

  lemma ListLeavesCluster(env: Env, w: World, c: nat, entry: Option<string>)
    requires Enabled(env, w, List(c, entry))
    ensures AfterList(w, c, entry).cluster == w.cluster
  {}

  lemma SecretStepCall(env: Env, w: World, c: nat, touch: bool, m: string)
    requires Inv(env, w) && Enabled(env, w, Call(c, touch))
    ensures
      || Credentials(AfterCall(w, c, touch).cluster, m) == Credentials(w.cluster, m)
      || RevokesOne(env, w, Call(c, touch), m)
  {
    hide GoodSecrets, GoodMetadata, GoodClients;
    assert ClientCopies(w.cluster, w.clients[c]);
  }

  lemma SecretStepMint(env: Env, w: World, a: Action, m: string)
    requires Inv(env, w) && Enabled(env, w, a) && a.Mint?
    ensures
      || Credentials(Next(env, w, a).cluster, m) == Credentials(w.cluster, m)
      || MintsOne(env, w, a, m)
  {
    assert ClientCopies(w.cluster, w.clients[a.c]);
  }

  /** The step records: a CreateKey adds the metadata of the key it put into the Secret, under an
      identifier that had none, names its user as the creator, and returns that identifier, unless
      the reply is lost. */
  ghost predicate RecordsOne(env: Env, w: World, a: Action, m: string) {
    && Enabled(env, w, a) && (a.Record? || a.ReplyLost?) && w.clients[a.c].pc.RecordKey?
    && w.clients[a.c].op.Create? && w.clients[a.c].op.principal.model == m
    && var w' := Next(env, w, a);
       var cl := w.clients[a.c];
       var id := cl.pc.id;
       && id !in Metadata(w.cluster, m)
       && Metadata(w'.cluster, m) ==
          Metadata(w.cluster, m)[id := KeyInfo(id, cl.op.principal.user, cl.op.description, a.now, m, env.namespace)]
       && w'.clients[a.c].recorded == cl.recorded + [id]
       && w'.clients[a.c].pc == Done(if a.Record? then Created(id, cl.pc.key) else Failed(OtherError))
  }

  ghost predicate ForgetsOne(env: Env, w: World, a: Action, m: string) {
    && Enabled(env, w, a) && (a.Call? || a.ReplyLost?) && w.clients[a.c].pc.ForgetKey?
    && var op := w.clients[a.c].op;
       && Revokes(op, m, op.id)
       && Metadata(Next(env, w, a).cluster, m) == Metadata(w.cluster, m) - {op.id}
  }

  /** The same for the metadata. */
  lemma ConfigMapStep(env: Env, w: World, a: Action, m: string)
    requires Inv(env, w) && Enabled(env, w, a)
    ensures
      || Metadata(Next(env, w, a).cluster, m) == Metadata(w.cluster, m)
      || RecordsOne(env, w, a, m)
      || ForgetsOne(env, w, a, m)
      || (a == DropConfigMap(m) && Metadata(Next(env, w, a).cluster, m) == map[])
  {
    hide AfterCall, AfterMint, AfterRecord, AfterList, Inv, IsNextSequence;
    match a
    case Call(c, touch) => ConfigMapStepCall(env, w, c, touch, m);
    case Record(_, _, _) => ConfigMapStepRecord(env, w, a, m);
    case Mint(c, sequence, key, touch) => MintLeavesConfigMaps(env, w, c, sequence, key, touch);
    case List(c, entry) => ListLeavesCluster(env, w, c, entry);
    case ReplyLost(_, _, _) => ConfigMapStepLost(env, w, a, m);
    case _ =>
  }

  lemma ConfigMapStepLost(env: Env, w: World, a: Action, m: string)
    requires Inv(env, w) && Enabled(env, w, a) && a.ReplyLost?
    ensures
      || Metadata(Next(env, w, a).cluster, m) == Metadata(w.cluster, m)
      || RecordsOne(env, w, a, m)
      || ForgetsOne(env, w, a, m)
  {
    LostIsUnheard(env, w, a);
    match LastWrite(w, a)
    case Call(c, touch) => ConfigMapStepCall(env, w, c, touch, m);
    case Record(_, _, _) => ConfigMapStepRecord(env, w, LastWrite(w, a), m);
    case _ =>
    hide AfterCall, AfterRecord, AfterMint, AfterList, Inv;
  }

  lemma ConfigMapStepCall(env: Env, w: World, c: nat, touch: bool, m: string)
    requires Inv(env, w) && Enabled(env, w, Call(c, touch))
    ensures
      || Metadata(AfterCall(w, c, touch).cluster, m) == Metadata(w.cluster, m)
      || ForgetsOne(env, w, Call(c, touch), m)
  {
    hide GoodSecrets, GoodMetadata, GoodClients;
    assert ClientCopies(w.cluster, w.clients[c]);
  }

  lemma ConfigMapStepRecord(env: Env, w: World, a: Action, m: string)
    requires Inv(env, w) && Enabled(env, w, a) && a.Record?
    ensures
      || Metadata(Next(env, w, a).cluster, m) == Metadata(w.cluster, m)
      || RecordsOne(env, w, a, m)
  {
    assert ClientCopies(w.cluster, w.clients[a.c]);
    assert GoodClient(env, w.minted, w.clients[a.c]);
  }

  // ---------- identifiers and keys belong to one place ----------

  /** No identifier stands in two models' Secrets: the pooled credentials of all models never
      clash. */
  lemma IdentifiersGloballyUnique(env: Env, w: World, m: string, m': string, id: string)
    requires ValidEnv(env) && Inv(env, w)
    requires id in Credentials(w.cluster, m) && id in Credentials(w.cluster, m')
    ensures m == m'
  {
    var k := Credentials(w.cluster, m)[id];
    var k' := Credentials(w.cluster, m')[id];
    assert GoodCredential(env, w.minted, m, id, k);
    assert GoodCredential(env, w.minted, m', id, k');
    ComposedForOne(env, id, w.minted[k].principal, w.minted[k'].principal);
  }

  /** No key value stands in two places. */
  lemma KeysGloballyUnique(env: Env, w: World, m: string, id: string, m': string, id': string)
    requires Inv(env, w)
    requires id in Credentials(w.cluster, m) && id' in Credentials(w.cluster, m')
    requires Credentials(w.cluster, m)[id] == Credentials(w.cluster, m')[id']
    ensures m == m' && id == id'
  {
    assert GoodCredential(env, w.minted, m, id, Credentials(w.cluster, m)[id]);
    assert GoodCredential(env, w.minted, m', id', Credentials(w.cluster, m')[id']);
  }

  /** Where a credential and a metadata entry share an identifier, they name the same user. */
  lemma MetadataNamesTheHolder(env: Env, w: World, m: string, id: string)
    requires ValidEnv(env) && Inv(env, w)
    requires id in Credentials(w.cluster, m) && id in Metadata(w.cluster, m)
    ensures Credentials(w.cluster, m)[id] in w.minted
    ensures w.minted[Credentials(w.cluster, m)[id]].principal == Principal(Metadata(w.cluster, m)[id].creator, m)
  {
    var key := Credentials(w.cluster, m)[id];
    assert GoodCredential(env, w.minted, m, id, key);
    assert GoodInfo(env, m, id, Metadata(w.cluster, m)[id]);
    ComposedForOne(env, id, w.minted[key].principal, Principal(Metadata(w.cluster, m)[id].creator, m));
  }

  // ---------- a DELETE only ever removes the caller's own credentials ----------

  /** In any run, a step of a DELETE by `user` that removes a credential removes one that was
      minted for `user`, whatever happened to that identifier since the handler looked: revoked,
      minted again, or dropped with its model and minted anew. */
  lemma DeleteRemovesOwnKeysOnly(env: Env, ws: seq<World>, acts: seq<Action>, i: nat, m: string, id: string)
    requires ValidEnv(env) && IsRun(env, ws, acts) && i < |acts|
    requires acts[i].Call? && ws[i].clients[acts[i].c].op.Delete?
    requires id in Credentials(ws[i].cluster, m)
    requires id !in Credentials(ws[i + 1].cluster, m)
    ensures id == ws[i].clients[acts[i].c].op.id
    ensures Credentials(ws[i].cluster, m)[id] in ws[i].minted
    ensures ws[i].minted[Credentials(ws[i].cluster, m)[id]].principal == Principal(ws[i].clients[acts[i].c].op.user, m)
  {
    var w, a := ws[i], acts[i];
    InvAlways(env, ws, acts, i);
    SecretStep(env, w, a, m);
    var key := Credentials(w.cluster, m)[id];
    assert GoodClient(env, w.minted, w.clients[a.c]);
    assert GoodCredential(env, w.minted, m, id, key);
    ComposedForOne(env, id, w.minted[key].principal, Principal(w.clients[a.c].op.user, m));
  }

  // ---------- conservation per call ----------

  function Attempt(pc: Pc): nat {
    match pc
    case ReadSecret(n) => n
    case ReadConfigMap(n, _) => n
    case WriteSecret(n, _, _) => n
    case RecordKey(n, _, _, _) => n
    case ForgetKey(n, _) => n
    case _ => 0
  }

  predicate Trying(pc: Pc) {
    pc.ReadSecret? || pc.ReadConfigMap? || pc.WriteSecret? || pc.RecordKey? || pc.ForgetKey?
  }

  ghost predicate Frugal(cl: Client) {
    && Attempt(cl.pc) < MAX_RETRIES
    && |cl.added| <= MAX_RETRIES
    && (Trying(cl.pc) ==> |cl.added| <= Attempt(cl.pc) + (if cl.pc.RecordKey? then 1 else 0))
    && (cl.pc.RecordKey? ==> cl.added != [] && cl.added[|cl.added| - 1] == cl.pc.id)
    && |cl.recorded| <= 1
    && (cl.recorded != [] ==> cl.pc.Done? && cl.added != [] && cl.recorded[0] == cl.added[|cl.added| - 1])
    && (cl.pc.Done? && cl.pc.outcome.Created? ==> cl.recorded == [cl.pc.outcome.id])
    && (!cl.op.Create? ==> cl.added == [] && cl.recorded == [])
  }

  lemma CallHistory(env: Env, w: World, c: nat, touch: bool)
    requires Enabled(env, w, Call(c, touch))
    ensures AfterCall(w, c, touch).clients[c] == w.clients[c].(pc := AfterCall(w, c, touch).clients[c].pc)
  {}

  lemma CallAttempt(env: Env, w: World, c: nat, touch: bool)
    requires Enabled(env, w, Call(c, touch)) && Attempt(w.clients[c].pc) < MAX_RETRIES
    ensures var pc, pc' := w.clients[c].pc, AfterCall(w, c, touch).clients[c].pc;
      && Attempt(pc') < MAX_RETRIES && !pc.RecordKey? && !pc'.RecordKey?
      && !pc.Done? && !(pc'.Done? && pc'.outcome.Created?)
      && (Trying(pc') ==> Trying(pc) && Attempt(pc) <= Attempt(pc'))
  {}

  lemma FrugalCall(env: Env, w: World, c: nat, touch: bool)
    requires Enabled(env, w, Call(c, touch)) && Frugal(w.clients[c])
    ensures Frugal(AfterCall(w, c, touch).clients[c])
  {
    CallHistory(env, w, c, touch);
    CallAttempt(env, w, c, touch);
    hide AfterCall, Enabled, Attempt, Trying;
  }

  lemma FrugalMint(env: Env, w: World, c: nat, sequence: nat, key: ApiKey, touch: bool)
    requires Enabled(env, w, Mint(c, sequence, key, touch)) && Frugal(w.clients[c])
    ensures Frugal(AfterMint(env, w, c, sequence, key, touch).clients[c])
  {}

  lemma FrugalRecord(env: Env, w: World, c: nat, now: int, touch: bool)
    requires Enabled(env, w, Record(c, now, touch)) && Frugal(w.clients[c])
    ensures Frugal(AfterRecord(env, w, c, now, touch).clients[c])
  {}

  lemma FrugalKept(env: Env, w: World, a: Action, c: nat)
    requires Enabled(env, w, a) && Actor(a) == Some(c)
    requires c in w.clients ==> Frugal(w.clients[c])
    ensures Frugal(Next(env, w, a).clients[c])
  {
    match a
    case Call(_, touch) => FrugalCall(env, w, c, touch);
    case Mint(_, sequence, key, touch) => FrugalMint(env, w, c, sequence, key, touch);
    case Record(_, now, touch) => FrugalRecord(env, w, c, now, touch);
    case ReplyLost(_, _, _) => FrugalLost(env, w, a);
    case _ => hide AfterCall, AfterRecord, AfterMint;
  }

  lemma FrugalLost(env: Env, w: World, a: Action)
    requires Enabled(env, w, a) && a.ReplyLost? && Frugal(w.clients[a.c])
    ensures Frugal(Next(env, w, a).clients[a.c])
  {
    LostIsUnheard(env, w, a);
    if w.clients[a.c].pc.RecordKey? {
      FrugalRecord(env, w, a.c, a.now, a.touch);
    } else {
      FrugalCall(env, w, a.c, a.touch);
    }
    hide AfterCall, AfterRecord, AfterMint, AfterList, Enabled;
  }

  /** One CreateKey call adds at most three identifiers to the Secret and at most one metadata
      entry, that of the identifier it added last; a successful one added exactly one entry, that of
      the identifier it returns.  (SecretStep and ConfigMapStep say that these histories are complete: no other
      step adds anything.)  The other calls add nothing. */
  lemma {:induction false} CallConservation(env: Env, ws: seq<World>, acts: seq<Action>, i: nat, c: nat)
    requires IsRun(env, ws, acts) && i < |ws| && c in ws[i].clients
    ensures Frugal(ws[i].clients[c])
  {
    hide Next, Enabled, Frugal;
    if i > 0 {
      if Actor(acts[i - 1]) == Some(c) {
        if c in ws[i - 1].clients { CallConservation(env, ws, acts, i - 1, c); }
        FrugalKept(env, ws[i - 1], acts[i - 1], c);
      } else {
        OnlyActorMoves(env, ws[i - 1], acts[i - 1], c);
        CallConservation(env, ws, acts, i - 1, c);
      }
    }
  }

  /** The ConfigMap write of a CreateKey is accepted, but its reply is lost. */
  ghost predicate EntryUnheard(w: World, a: Action, c: nat) {
    && a.ReplyLost? && a.c == c && c in w.clients && w.clients[c].op.Create? && w.clients[c].pc.RecordKey?
    && var m := w.clients[c].op.principal.model;
       m in w.cluster.configMaps && w.cluster.configMaps[m].version == w.clients[c].pc.cm.version
  }

  predicate Succeeded(cl: Client) {
    cl.pc.Done? && cl.pc.outcome.Created?
  }

  lemma EntryStep(env: Env, w: World, a: Action, c: nat)
    requires Enabled(env, w, a) && Actor(a) == Some(c) && c in w.clients && w.clients[c].op.Create?
    requires w.clients[c].recorded == []
    ensures c in Next(env, w, a).clients
    ensures Next(env, w, a).clients[c].recorded != []
       <==> Succeeded(Next(env, w, a).clients[c]) || EntryUnheard(w, a, c)
  {
    hide IsNextSequence;
  }

  lemma EntryBegins(env: Env, w: World, a: Action, c: nat)
    requires Enabled(env, w, a) && Actor(a) == Some(c) && c !in w.clients
    ensures c in Next(env, w, a).clients
    ensures Next(env, w, a).clients[c].recorded == [] && !Succeeded(Next(env, w, a).clients[c])
  {}

  lemma OpKept(env: Env, w: World, a: Action, c: nat)
    requires Enabled(env, w, a) && c in w.clients
    ensures c in Next(env, w, a).clients && Next(env, w, a).clients[c].op == w.clients[c].op
  {
    hide IsNextSequence;
    if Actor(a) != Some(c) { OnlyActorMoves(env, w, a, c); }
  }

  lemma {:induction false} NotBegunBefore(env: Env, ws: seq<World>, acts: seq<Action>, t: nat, i: nat, c: nat)
    requires IsPath(env, ws, acts) && t <= i < |ws| && c !in ws[i].clients
    ensures c !in ws[t].clients
    decreases i
  {
    hide Next, Enabled;
    if t < i {
      if c in ws[i - 1].clients { OpKept(env, ws[i - 1], acts[i - 1], c); }
      NotBegunBefore(env, ws, acts, t, i - 1, c);
    }
  }

  /** A CreateKey call has left a metadata entry exactly if it succeeded, or the reply to its
      accepted ConfigMap write was lost. */
  lemma {:induction false} EntryExactly(env: Env, ws: seq<World>, acts: seq<Action>, i: nat, c: nat)
    requires IsRun(env, ws, acts) && i < |ws| && c in ws[i].clients && ws[i].clients[c].op.Create?
    ensures ws[i].clients[c].recorded != []
       <==> Succeeded(ws[i].clients[c]) || exists t: nat :: t < i && EntryUnheard(ws[t], acts[t], c)
  {
    hide Next, Enabled, EntryUnheard, Frugal;
    if i > 0 {
      var w, a := ws[i - 1], acts[i - 1];
      if Actor(a) != Some(c) { OnlyActorMoves(env, w, a, c); }
      if c in w.clients {
        OpKept(env, w, a, c);
        EntryExactly(env, ws, acts, i - 1, c);
        if Actor(a) == Some(c) {
          NotYetRecorded(env, ws, acts, i - 1, c);
          EntryStep(env, w, a, c);
        } else {
          NotUnheard(w, a, c);
        }
      } else {
        EntryBegins(env, w, a, c);
        forall t: nat | t < i ensures !EntryUnheard(ws[t], acts[t], c) {
          NotBegunBefore(env, ws, acts, t, i - 1, c);
          NotUnheard(ws[t], acts[t], c);
        }
      }
    }
  }

  /** A call that is still going has recorded nothing. */
  lemma NotYetRecorded(env: Env, ws: seq<World>, acts: seq<Action>, i: nat, c: nat)
    requires IsRun(env, ws, acts) && i < |acts| && c in ws[i].clients && Actor(acts[i]) == Some(c)
    ensures ws[i].clients[c].recorded == [] && !Succeeded(ws[i].clients[c])
  {
    hide IsNextSequence, Next;
    CallConservation(env, ws, acts, i, c);
    assert Enabled(env, ws[i], acts[i]);
  }

  lemma NotUnheard(w: World, a: Action, c: nat)
    requires Actor(a) != Some(c) || c !in w.clients || w.clients[c].pc.Done?
    ensures !EntryUnheard(w, a, c)
  {}

  // ---------- a key that is gone stays gone ----------

  /** The key is in no model's Secret. */
  ghost predicate Nowhere(k: Cluster, key: ApiKey) {
    forall m, id :: id in Credentials(k, m) ==> Credentials(k, m)[id] != key
  }

  lemma StaysNowhere(env: Env, w: World, a: Action, key: ApiKey)
    requires Inv(env, w) && Enabled(env, w, a) && key in w.minted && Nowhere(w.cluster, key)
    ensures key in Next(env, w, a).minted && Nowhere(Next(env, w, a).cluster, key)
  {
    MintedGrows(env, w, a);
    hide Next, Enabled, Inv;
    forall m, id | id in Credentials(Next(env, w, a).cluster, m)
      ensures Credentials(Next(env, w, a).cluster, m)[id] != key {
      SecretStep(env, w, a, m);
    }
  }

  lemma MintedGrows(env: Env, w: World, a: Action)
    requires Enabled(env, w, a)
    ensures w.minted.Keys <= Next(env, w, a).minted.Keys
  {
    hide IsNextSequence;
  }

  /** A generated key that is in no Secret, because it was revoked, went with its model, or never got
      there, is in no Secret ever after. */
  lemma {:induction false} GoneForGood(env: Env, ws: seq<World>, acts: seq<Action>, i: nat, j: nat, key: ApiKey)
    requires ValidEnv(env) && IsRun(env, ws, acts) && i <= j < |ws|
    requires key in ws[i].minted && Nowhere(ws[i].cluster, key)
    ensures key in ws[j].minted && Nowhere(ws[j].cluster, key)
  {
    hide Next, Enabled, Inv, Nowhere;
    if i < j {
      GoneForGood(env, ws, acts, i, j - 1, key);
      InvAlways(env, ws, acts, j - 1);
      StaysNowhere(env, ws[j - 1], acts[j - 1], key);
    }
  }

  // ---------- a returned credential stays ----------

  /** The step takes the credential away: the accepted Secret write of a revocation of `id`, or the
      deletion of the Secret. */
  ghost predicate Removes(env: Env, w: World, a: Action, m: string, id: string) {
    a == DropSecret(m) || (RevokesOne(env, w, a, m) && w.clients[a.c].op.id == id)
  }

  /** The same for the metadata entry. */
  ghost predicate Forgets(env: Env, w: World, a: Action, m: string, id: string) {
    a == DropConfigMap(m) || (ForgetsOne(env, w, a, m) && w.clients[a.c].op.id == id)
  }

  lemma CredentialKept(env: Env, w: World, a: Action, m: string, id: string)
    requires Inv(env, w) && Enabled(env, w, a) && !Removes(env, w, a, m, id)
    requires id in Credentials(w.cluster, m)
    ensures id in Credentials(Next(env, w, a).cluster, m)
    ensures Credentials(Next(env, w, a).cluster, m)[id] == Credentials(w.cluster, m)[id]
  {
    SecretStep(env, w, a, m);
  }

  lemma MetadataEntryKept(env: Env, w: World, a: Action, m: string, id: string)
    requires Inv(env, w) && Enabled(env, w, a) && !Forgets(env, w, a, m, id)
    requires id in Metadata(w.cluster, m)
    ensures id in Metadata(Next(env, w, a).cluster, m)
    ensures Metadata(Next(env, w, a).cluster, m)[id] == Metadata(w.cluster, m)[id]
  {
    ConfigMapStep(env, w, a, m);
  }

  /** A credential keeps its key through any steps that do not take it away: attempts to revoke it
      that are refused, or still reading, included. */
  lemma {:induction false} CredentialSurvives(env: Env, ws: seq<World>, acts: seq<Action>, i: nat, j: nat, m: string,
                                              id: string)
    requires ValidEnv(env) && IsRun(env, ws, acts) && i <= j < |ws|
    requires forall s :: i <= s < j ==> !Removes(env, ws[s], acts[s], m, id)
    requires id in Credentials(ws[i].cluster, m)
    ensures id in Credentials(ws[j].cluster, m)
    ensures Credentials(ws[j].cluster, m)[id] == Credentials(ws[i].cluster, m)[id]
  {
    hide Next, Enabled, Inv, Removes;
    if i < j {
      CredentialSurvives(env, ws, acts, i, j - 1, m, id);
      InvAlways(env, ws, acts, j - 1);
      CredentialKept(env, ws[j - 1], acts[j - 1], m, id);
    }
  }

  /** And so does a metadata entry. */
  lemma {:induction false} EntrySurvives(env: Env, ws: seq<World>, acts: seq<Action>, i: nat, j: nat, m: string,
                                         id: string)
    requires ValidEnv(env) && IsRun(env, ws, acts) && i <= j < |ws|
    requires forall s :: i <= s < j ==> !Forgets(env, ws[s], acts[s], m, id)
    requires id in Metadata(ws[i].cluster, m)
    ensures id in Metadata(ws[j].cluster, m) && Metadata(ws[j].cluster, m)[id] == Metadata(ws[i].cluster, m)[id]
  {
    hide Next, Enabled, Inv, Forgets;
    if i < j {
      EntrySurvives(env, ws, acts, i, j - 1, m, id);
      InvAlways(env, ws, acts, j - 1);
      MetadataEntryKept(env, ws[j - 1], acts[j - 1], m, id);
    }
  }

  lemma DoneTakesNoStep(env: Env, w: World, a: Action, c: nat)
    requires Enabled(env, w, a) && c in w.clients && w.clients[c].pc.Done?
    ensures Actor(a) != Some(c)
  {}

  lemma StepOf(env: Env, ws: seq<World>, acts: seq<Action>, i: nat)
    requires IsPath(env, ws, acts) && i < |acts|
    ensures Enabled(env, ws[i], acts[i]) && ws[i + 1] == Next(env, ws[i], acts[i])
  {}

  /** A call that takes no step stays where it is. */
  lemma {:induction false} CallWaits(env: Env, ws: seq<World>, acts: seq<Action>, i: nat, j: nat, c: nat)
    requires IsPath(env, ws, acts) && i <= j < |ws| && c in ws[i].clients
    requires forall s :: i <= s < j ==> Actor(acts[s]) != Some(c)
    ensures c in ws[j].clients && ws[j].clients[c] == ws[i].clients[c]
  {
    hide Next, Enabled;
    if i < j {
      CallWaits(env, ws, acts, i, j - 1, c);
      OnlyActorMoves(env, ws[j - 1], acts[j - 1], c);
    }
  }

  /** The Secret write of a CreateKey that went through: the credential is in place. */
  lemma MintedInPlace(env: Env, w: World, a: Action)
    requires Inv(env, w) && Enabled(env, w, a) && a.Mint? && Next(env, w, a).clients[a.c].pc.RecordKey?
    ensures var w' := Next(env, w, a);
      var pc := w'.clients[a.c].pc;
      var m := w.clients[a.c].op.principal.model;
      pc.id in Credentials(w'.cluster, m) && Credentials(w'.cluster, m)[pc.id] == pc.key
  {}

  /** Its ConfigMap write: the metadata is in place. */
  lemma RecordedInPlace(env: Env, w: World, a: Action)
    requires Inv(env, w) && Enabled(env, w, a) && a.Record?
    requires Next(env, w, a).clients[a.c].pc.Done? && Next(env, w, a).clients[a.c].pc.outcome.Created?
    ensures var w' := Next(env, w, a);
      var p := w.clients[a.c].op.principal;
      var out := w'.clients[a.c].pc.outcome;
      && out == Created(w.clients[a.c].pc.id, w.clients[a.c].pc.key)
      && out.id in Metadata(w'.cluster, p.model) && Metadata(w'.cluster, p.model)[out.id].creator == p.user
  {}

  lemma InPlaceAfterWrites(env: Env, ws: seq<World>, acts: seq<Action>, s: nat, r: nat, j: nat, c: nat)
    requires ValidEnv(env) && IsRun(env, ws, acts) && s < r < j < |ws|
    requires acts[s].Mint? && acts[s].c == c && ws[s + 1].clients[c].pc.RecordKey?
    requires forall t :: s < t < r ==> Actor(acts[t]) != Some(c)
    requires acts[r].Record? && acts[r].c == c && ws[r + 1].clients[c].pc.Done?
        && ws[r + 1].clients[c].pc.outcome.Created?
    requires var id := ws[s + 1].clients[c].pc.id; var m := ws[s].clients[c].op.principal.model;
      && (forall t :: s < t < j ==> !Removes(env, ws[t], acts[t], m, id))
      && forall t :: r < t < j ==> !Forgets(env, ws[t], acts[t], m, id)
    ensures var p := ws[s].clients[c].op.principal;
      var out := ws[r + 1].clients[c].pc.outcome;
      && out.id in Credentials(ws[j].cluster, p.model) && Credentials(ws[j].cluster, p.model)[out.id] == out.key
      && out.id in Metadata(ws[j].cluster, p.model) && Metadata(ws[j].cluster, p.model)[out.id].creator == p.user
  {
    var p := ws[s].clients[c].op.principal;
    var id := ws[s + 1].clients[c].pc.id;
    InvAlways(env, ws, acts, s);
    InvAlways(env, ws, acts, r);
    MintedInPlace(env, ws[s], acts[s]);
    MintKeepsOp(env, ws[s], acts[s]);
    CallWaits(env, ws, acts, s + 1, r, c);
    RecordedInPlace(env, ws[r], acts[r]);
    CredentialSurvives(env, ws, acts, s + 1, j, p.model, id);
    EntrySurvives(env, ws, acts, r + 1, j, p.model, id);
  }

  /** The last step the call took before moment `i`. */
  lemma {:induction false} LastMove(env: Env, ws: seq<World>, acts: seq<Action>, i: nat, c: nat) returns (t: nat)
    requires IsRun(env, ws, acts) && i < |ws| && c in ws[i].clients
    ensures t < i && Actor(acts[t]) == Some(c) && forall u :: t < u < i ==> Actor(acts[u]) != Some(c)
    ensures c in ws[t + 1].clients && ws[t + 1].clients[c] == ws[i].clients[c]
  {
    hide Next, Enabled;
    if Actor(acts[i - 1]) == Some(c) {
      t := i - 1;
    } else {
      OnlyActorMoves(env, ws[i - 1], acts[i - 1], c);
      t := LastMove(env, ws, acts, i - 1, c);
    }
  }

  /** Only its ConfigMap write makes a call succeed, and only a Secret write leads up to that. */
  lemma WhatLedThere(env: Env, w: World, a: Action, c: nat)
    requires Enabled(env, w, a) && Actor(a) == Some(c) && c in Next(env, w, a).clients
    ensures Succeeded(Next(env, w, a).clients[c]) ==> a.Record? && c in w.clients && w.clients[c].pc.RecordKey?
    ensures Next(env, w, a).clients[c].pc.RecordKey? ==> a.Mint? && c in w.clients
  {
    hide IsNextSequence;
  }

  /** Every call that has succeeded has its two writes behind it, steps `s` and `r`.  If nothing took
      the credential away since step `s`, nor its entry since step `r`, then at every later moment
      `j` both objects hold what the call returned. */
  lemma ReturnedKeyInPlace(env: Env, ws: seq<World>, acts: seq<Action>, i: nat, j: nat, c: nat) returns (s: nat, r: nat)
    requires ValidEnv(env) && IsRun(env, ws, acts) && i <= j < |ws|
    requires c in ws[i].clients && ws[i].clients[c].op.Create? && Succeeded(ws[i].clients[c])
    ensures s < r < i && Actor(acts[s]) == Some(c) && acts[s].Mint? && Actor(acts[r]) == Some(c) && acts[r].Record?
    ensures var p, out := ws[i].clients[c].op.principal, ws[i].clients[c].pc.outcome;
      (forall t :: s < t < j ==> !Removes(env, ws[t], acts[t], p.model, out.id)) &&
      (forall t :: r < t < j ==> !Forgets(env, ws[t], acts[t], p.model, out.id)) ==>
        && out.id in Credentials(ws[j].cluster, p.model) && Credentials(ws[j].cluster, p.model)[out.id] == out.key
        && out.id in Metadata(ws[j].cluster, p.model) && Metadata(ws[j].cluster, p.model)[out.id].creator == p.user
  {
    hide Next, Enabled, Inv, Removes, Forgets;
    r := LastMove(env, ws, acts, i, c);
    WhatLedThere(env, ws[r], acts[r], c);
    s := LastMove(env, ws, acts, r, c);
    WhatLedThere(env, ws[s], acts[s], c);
    OpKept(env, ws[r], acts[r], c);
    OpKept(env, ws[s], acts[s], c);
    var p, out := ws[i].clients[c].op.principal, ws[i].clients[c].pc.outcome;
    InvAlways(env, ws, acts, r);
    RecordedInPlace(env, ws[r], acts[r]);
    if (forall t :: s < t < j ==> !Removes(env, ws[t], acts[t], p.model, out.id))
      && (forall t :: r < t < j ==> !Forgets(env, ws[t], acts[t], p.model, out.id)) {
      InPlaceAfterWrites(env, ws, acts, s, r, j, c);
    }
  }

  lemma MintKeepsOp(env: Env, w: World, a: Action)
    requires Enabled(env, w, a) && a.Mint?
    ensures Next(env, w, a).clients[a.c].op == w.clients[a.c].op
  {}
}
