/** What the writers leave in the two objects of a model, exactly: labels as well as data, step by
    step and for whole calls (key-manager/internal/secrets/manager.go, and the two helpers of
    operator/internal/controller/llmmodel_controller.go). */
module Effects {
  import opened Wrappers
  import opened ClientIds
  import opened Ledger
  import opened LedgerRuns

  // ---------- labels ----------

  /** The step is one of a call that asks for these labels on the model's Secret. */
  predicate AsksSecretLabels(w: World, a: Action, m: string, labels: Labels) {
    Actor(a).Some? && Actor(a).value in w.clients && w.clients[Actor(a).value].op == EnsureSecret(m, labels)
  }

  predicate AsksConfigMapLabels(w: World, a: Action, m: string, labels: Labels) {
    Actor(a).Some? && Actor(a).value in w.clients && w.clients[Actor(a).value].op == EnsureConfigMap(m, labels)
  }

  /** A Secret that is there before and after keeps its labels, or gets those an EnsureSecret asked
      for and keeps its data; a new one has the labels an EnsureSecret asked for and no data. */
  ghost predicate SecretLabelled(w: World, a: Action, k: Cluster, k': Cluster, m: string) {
    m in k'.secrets ==>
      || (m in k.secrets && k'.secrets[m].labels == k.secrets[m].labels)
      || (AsksSecretLabels(w, a, m, k'.secrets[m].labels) && k'.secrets[m].data == Credentials(k, m))
  }

  ghost predicate ConfigMapLabelled(w: World, a: Action, k: Cluster, k': Cluster, m: string) {
    m in k'.configMaps ==>
      || (m in k.configMaps && k'.configMaps[m].labels == k.configMaps[m].labels)
      || (AsksConfigMapLabels(w, a, m, k'.configMaps[m].labels) && k'.configMaps[m].data == Metadata(k, m))
  }

  lemma EnsureSecretLabels(env: Env, w: World, c: nat, touch: bool, m: string)
    requires Enabled(env, w, Call(c, touch)) && ClientCopies(w.cluster, w.clients[c])
    requires w.clients[c].pc.EnsureWriteSecret?
    ensures SecretLabelled(w, Call(c, touch), w.cluster, AfterCall(w, c, touch).cluster, m)
    ensures ConfigMapLabelled(w, Call(c, touch), w.cluster, AfterCall(w, c, touch).cluster, m)
  {}

  lemma EnsureConfigMapLabels(env: Env, w: World, c: nat, touch: bool, m: string)
    requires Enabled(env, w, Call(c, touch)) && ClientCopies(w.cluster, w.clients[c])
    requires w.clients[c].pc.EnsureWriteConfigMap?
    ensures SecretLabelled(w, Call(c, touch), w.cluster, AfterCall(w, c, touch).cluster, m)
    ensures ConfigMapLabelled(w, Call(c, touch), w.cluster, AfterCall(w, c, touch).cluster, m)
  {}

  lemma RevokeCallLabels(env: Env, w: World, c: nat, touch: bool, m: string)
    requires Enabled(env, w, Call(c, touch)) && ClientCopies(w.cluster, w.clients[c])
    requires !w.clients[c].pc.EnsureWriteSecret? && !w.clients[c].pc.EnsureWriteConfigMap?
    ensures SecretLabelled(w, Call(c, touch), w.cluster, AfterCall(w, c, touch).cluster, m)
    ensures ConfigMapLabelled(w, Call(c, touch), w.cluster, AfterCall(w, c, touch).cluster, m)
  {}

  lemma CallLabels(env: Env, w: World, c: nat, touch: bool, m: string)
    requires Inv(env, w) && Enabled(env, w, Call(c, touch))
    ensures SecretLabelled(w, Call(c, touch), w.cluster, AfterCall(w, c, touch).cluster, m)
    ensures ConfigMapLabelled(w, Call(c, touch), w.cluster, AfterCall(w, c, touch).cluster, m)
  {
    hide GoodSecrets, GoodMetadata, GoodClients, AfterCall;
    assert ClientCopies(w.cluster, w.clients[c]);
    hide ClientCopies, SecretLabelled, ConfigMapLabelled;
    if w.clients[c].pc.EnsureWriteSecret? {
      EnsureSecretLabels(env, w, c, touch, m);
    } else if w.clients[c].pc.EnsureWriteConfigMap? {
      EnsureConfigMapLabels(env, w, c, touch, m);
    } else {
      RevokeCallLabels(env, w, c, touch, m);
    }
  }

  lemma MintLabels(env: Env, w: World, a: Action, m: string)
    requires Inv(env, w) && Enabled(env, w, a) && a.Mint?
    ensures SecretLabelled(w, a, w.cluster, Next(env, w, a).cluster, m)
    ensures ConfigMapLabelled(w, a, w.cluster, Next(env, w, a).cluster, m)
  {
    hide GoodSecrets, GoodMetadata, GoodClients, IsNextSequence;
    assert ClientCopies(w.cluster, w.clients[a.c]);
  }

  lemma RecordLabels(env: Env, w: World, c: nat, now: int, touch: bool, m: string)
    requires Inv(env, w) && Enabled(env, w, Record(c, now, touch))
    ensures var k' := AfterRecord(env, w, c, now, touch).cluster;
      && SecretLabelled(w, Record(c, now, touch), w.cluster, k', m)
      && ConfigMapLabelled(w, Record(c, now, touch), w.cluster, k', m)
  {
    hide GoodSecrets, GoodMetadata, GoodClients;
    assert ClientCopies(w.cluster, w.clients[c]);
  }

  /** No step of a CreateKey, a RevokeKey or a DELETE changes any object's labels, in either map. */
  lemma LabelsStep(env: Env, w: World, a: Action, m: string)
    requires Inv(env, w) && Enabled(env, w, a)
    ensures SecretLabelled(w, a, w.cluster, Next(env, w, a).cluster, m)
    ensures ConfigMapLabelled(w, a, w.cluster, Next(env, w, a).cluster, m)
  {
    hide AfterCall, AfterMint, AfterRecord, AfterList, Inv, IsNextSequence;
    match a
    case Call(c, touch) => CallLabels(env, w, c, touch, m);
    case Mint(_, _, _, _) => MintLabels(env, w, a, m);
    case Record(c, now, touch) => RecordLabels(env, w, c, now, touch, m);
    case List(c, entry) => ListLeavesCluster(env, w, c, entry);
    case ReplyLost(c, now, touch) =>
      LostIsUnheard(env, w, a);
      if w.clients[c].pc.RecordKey? {
        RecordLabels(env, w, c, now, touch, m);
      } else {
        CallLabels(env, w, c, touch, m);
      }
    case _ =>
  }

  lemma EnsuredStep(env: Env, w: World, a: Action, c: nat)
    requires Enabled(env, w, a) && Actor(a) == Some(c) && c in w.clients
    requires Next(env, w, a).clients[c].pc == Done(Ensured)
    ensures a.Call? && (w.clients[c].pc.EnsureWriteSecret? || w.clients[c].pc.EnsureWriteConfigMap?)
  {
    hide IsNextSequence;
  }

  ghost predicate LabelledAsAsked(op: Op, k: Cluster, k': Cluster) {
    match op
    case EnsureSecret(m, labels) =>
      m in k'.secrets && k'.secrets[m].labels == labels && k'.secrets[m].data == Credentials(k, m)
    case EnsureConfigMap(m, labels) =>
      m in k'.configMaps && k'.configMaps[m].labels == labels && k'.configMaps[m].data == Metadata(k, m)
    case _ => false
  }

  lemma EnsureCallLeaves(env: Env, w: World, c: nat, touch: bool)
    requires Enabled(env, w, Call(c, touch)) && ClientCopies(w.cluster, w.clients[c])
    requires w.clients[c].pc.EnsureWriteSecret? || w.clients[c].pc.EnsureWriteConfigMap?
    requires AfterCall(w, c, touch).clients[c].pc == Done(Ensured)
    ensures LabelledAsAsked(w.clients[c].op, w.cluster, AfterCall(w, c, touch).cluster)
  {}

  /** An operator's label update that reports success has left exactly the wanted labels, and the
      data as they were. */
  lemma EnsuredLeaves(env: Env, w: World, a: Action, c: nat)
    requires Inv(env, w) && Enabled(env, w, a) && Actor(a) == Some(c) && c in w.clients
    requires Next(env, w, a).clients[c].pc == Done(Ensured)
    ensures LabelledAsAsked(w.clients[c].op, w.cluster, Next(env, w, a).cluster)
  {
    hide GoodSecrets, GoodMetadata, GoodClients, IsNextSequence, AfterCall;
    EnsuredStep(env, w, a, c);
    assert ClientCopies(w.cluster, w.clients[c]);
    hide ClientCopies;
    EnsureCallLeaves(env, w, c, a.touch);
  }

  // ---------- the last write of a revocation ----------

  /** The step that makes a revocation succeed takes exactly its entry out of the metadata. */
  lemma RevokedStep(env: Env, w: World, a: Action, c: nat)
    requires Inv(env, w) && Enabled(env, w, a) && Actor(a) == Some(c) && c in w.clients
    requires Next(env, w, a).clients[c].pc == Done(Revoked)
    ensures a.Call? && w.clients[c].pc.ForgetKey? && (w.clients[c].op.Revoke? || w.clients[c].op.Delete?)
    ensures var m, id := w.clients[c].op.model, w.clients[c].op.id;
      && Metadata(Next(env, w, a).cluster, m) == Metadata(w.cluster, m) - {id}
      && m in w.cluster.configMaps && Next(env, w, a).cluster.secrets == w.cluster.secrets
  {
    hide GoodSecrets, GoodMetadata, GoodClients, IsNextSequence;
    assert ClientCopies(w.cluster, w.clients[c]);
  }

  /** The step that brings a revocation to that write takes exactly its key out of the Secret. */
  lemma RemovedStep(env: Env, w: World, a: Action, c: nat)
    requires Inv(env, w) && Enabled(env, w, a) && Actor(a) == Some(c) && c in w.clients
    requires Next(env, w, a).clients[c].pc.ForgetKey?
    ensures a.Call? && w.clients[c].pc.WriteSecret? && (w.clients[c].op.Revoke? || w.clients[c].op.Delete?)
    ensures var m, id := w.clients[c].op.model, w.clients[c].op.id;
      && id in Credentials(w.cluster, m)
      && Credentials(Next(env, w, a).cluster, m) == Credentials(w.cluster, m) - {id}
      && Next(env, w, a).cluster.configMaps == w.cluster.configMaps
  {
    hide GoodSecrets, GoodMetadata, GoodClients, IsNextSequence;
    assert ClientCopies(w.cluster, w.clients[c]);
  }

  /** A revocation that has succeeded has behind it one accepted Secret write, step `s`, that removed
      exactly its key, which was there, and one accepted ConfigMap write, step `r`, that removed
      exactly its entry. */
  lemma RevokedHasRemoved(env: Env, ws: seq<World>, acts: seq<Action>, i: nat, c: nat) returns (s: nat, r: nat)
    requires ValidEnv(env) && IsRun(env, ws, acts) && i < |ws|
    requires c in ws[i].clients && ws[i].clients[c].pc == Done(Revoked)
    ensures s < r < i && Actor(acts[s]) == Some(c) && Actor(acts[r]) == Some(c)
    ensures ws[i].clients[c].op.Revoke? || ws[i].clients[c].op.Delete?
    ensures var m, id := ws[i].clients[c].op.model, ws[i].clients[c].op.id;
      && id in Credentials(ws[s].cluster, m)
      && Credentials(ws[s + 1].cluster, m) == Credentials(ws[s].cluster, m) - {id}
      && Metadata(ws[r + 1].cluster, m) == Metadata(ws[r].cluster, m) - {id}
  {
    hide Next, Enabled, Inv;
    r := LastMove(env, ws, acts, i, c);
    InvAlways(env, ws, acts, r);
    BegunBefore(env, ws[r], acts[r], c);
    RevokedStep(env, ws[r], acts[r], c);
    s := LastMove(env, ws, acts, r, c);
    InvAlways(env, ws, acts, s);
    BegunBefore(env, ws[s], acts[s], c);
    RemovedStep(env, ws[s], acts[s], c);
    OpKept(env, ws[r], acts[r], c);
    OpKept(env, ws[s], acts[s], c);
  }

  lemma BegunBefore(env: Env, w: World, a: Action, c: nat)
    requires Enabled(env, w, a) && Actor(a) == Some(c)
    ensures c in w.clients || (c in Next(env, w, a).clients && !Next(env, w, a).clients[c].pc.ForgetKey?
                               && Next(env, w, a).clients[c].pc != Done(Revoked))
  {
    hide IsNextSequence;
  }

  // ---------- a call that nobody disturbs ----------

  /** From moment `i` on only call `c` takes steps, and none of its requests fails. */
  ghost predicate Undisturbed(env: Env, ws: seq<World>, acts: seq<Action>, i: nat, c: nat) {
    && IsPath(env, ws, acts) && i <= |acts|
    && forall t :: i <= t < |acts| ==> Actor(acts[t]) == Some(c) && !acts[t].Fault? && !acts[t].ReplyLost?
  }

  /** The model's Secret, with some version. */
  ghost predicate SecretIs(k: Cluster, m: string, data: map<string, ApiKey>, labels: Labels) {
    m in k.secrets && k.secrets[m].data == data && k.secrets[m].labels == labels
  }

  ghost predicate ConfigMapIs(k: Cluster, m: string, data: map<string, KeyInfo>, labels: Labels) {
    m in k.configMaps && k.configMaps[m].data == data && k.configMaps[m].labels == labels
  }

  /** All other models' objects are as they were. */
  ghost predicate OthersSame(k: Cluster, k': Cluster, m: string) {
    k'.secrets - {m} == k.secrets - {m} && k'.configMaps - {m} == k.configMaps - {m}
  }

  lemma UndisturbedStep(env: Env, ws: seq<World>, acts: seq<Action>, i: nat, c: nat)
    requires Undisturbed(env, ws, acts, i, c) && c in ws[i].clients && !ws[i].clients[c].pc.Done?
    requires c in ws[|acts|].clients && ws[|acts|].clients[c].pc.Done?
    ensures i < |acts| && Undisturbed(env, ws, acts, i + 1, c)
    ensures Enabled(env, ws[i], acts[i]) && ws[i + 1] == Next(env, ws[i], acts[i])
  {
    hide Enabled, Next;
  }

  lemma UndisturbedEnd(env: Env, ws: seq<World>, acts: seq<Action>, i: nat, c: nat)
    requires Undisturbed(env, ws, acts, i, c) && c in ws[i].clients && ws[i].clients[c].pc.Done?
    ensures i == |acts|
  {
    hide Enabled, Next;
    if i < |acts| {
      StepOf(env, ws, acts, i);
      DoneTakesNoStep(env, ws[i], acts[i], c);
    }
  }

  /** The two reads of an attempt. */
  lemma ReadsBoth(env: Env, ws: seq<World>, acts: seq<Action>, i: nat, c: nat)
    requires Undisturbed(env, ws, acts, i, c) && c in ws[i].clients && ws[i].clients[c].pc == ReadSecret(0)
    requires c in ws[|acts|].clients && ws[|acts|].clients[c].pc.Done?
    requires var m := ModelOf(ws[i].clients[c].op); m in ws[i].cluster.secrets && m in ws[i].cluster.configMaps
    ensures i + 2 <= |acts| && Undisturbed(env, ws, acts, i + 2, c)
    ensures var m := ModelOf(ws[i].clients[c].op);
      ws[i + 2] == At(ws[i], c, WriteSecret(0, ws[i].cluster.secrets[m], ws[i].cluster.configMaps[m]))
  {
    UndisturbedStep(env, ws, acts, i, c);
    ReadSecretStep(env, ws[i], acts[i], c);
    hide Enabled, Next;
    UndisturbedStep(env, ws, acts, i + 1, c);
    ReadConfigMapStep(env, ws[i + 1], acts[i + 1], c);
  }

  lemma ReadSecretStep(env: Env, w: World, a: Action, c: nat)
    requires Enabled(env, w, a) && Actor(a) == Some(c) && c in w.clients && w.clients[c].pc.ReadSecret?
    requires !a.Fault? && !a.ReplyLost? && ModelOf(w.clients[c].op) in w.cluster.secrets
    ensures Next(env, w, a)
      == At(w, c, ReadConfigMap(w.clients[c].pc.attempt, w.cluster.secrets[ModelOf(w.clients[c].op)]))
  {}

  lemma ReadConfigMapStep(env: Env, w: World, a: Action, c: nat)
    requires Enabled(env, w, a) && Actor(a) == Some(c) && c in w.clients && w.clients[c].pc.ReadConfigMap?
    requires !a.Fault? && !a.ReplyLost? && ModelOf(w.clients[c].op) in w.cluster.configMaps
    ensures var pc := w.clients[c].pc;
      Next(env, w, a) == At(w, c, WriteSecret(pc.attempt, pc.secret, w.cluster.configMaps[ModelOf(w.clients[c].op)]))
  {}

  lemma {:induction false} FirstFree(h: Hash, p: Principal, s: set<string>, m: set<string>, n: nat) returns (r: nat)
    requires HexDigest(h) && ProbeStart(h, p, s) <= n
    requires forall k :: ProbeStart(h, p, s) <= k < n ==> ClientId(h, p, k) in s + m
    ensures IsNextSequence(h, p, s, m, r)
    decreases |s + m| - (n - ProbeStart(h, p, s))
  {
    if ClientId(h, p, n) !in s + m {
      r := n;
    } else {
      var tried := IdRange(h, p, ProbeStart(h, p, s), n + 1);
      IdRangeSize(h, p, ProbeStart(h, p, s), n + 1);
      SubsetSize(tried, s + m);
      r := FirstFree(h, p, s, m, n + 1);
    }
  }

  lemma {:induction false} UnusedKey(used: set<ApiKey>) returns (n: nat)
    ensures forall k :: k in used ==> k.token < n
    decreases |used|
  {
    if used == {} {
      n := 0;
    } else {
      var k :| k in used;
      var m := UnusedKey(used - {k});
      n := if m <= k.token then k.token + 1 else m;
      assert forall x :: x in used ==> x == k || x in used - {k};
    }
  }

  /** A call that has not ended can always go on without a fault: it is not stuck. */
  lemma NeverStuck(env: Env, w: World, c: nat) returns (a: Action)
    requires ValidEnv(env) && Running(w, c) && Fits(w.clients[c])
    ensures Enabled(env, w, a) && Actor(a) == Some(c) && !a.Fault? && !a.ReplyLost?
  {
    hide IsNextSequence;
    var cl := w.clients[c];
    match cl.pc
    case Listing =>
      var entries := Metadata(w.cluster, cl.op.model);
      if k :| k in entries && Matches(entries[k], cl.op) { a := List(c, Some(k)); } else { a := List(c, None); }
    case WriteSecret(_, secret, cm) =>
      if cl.op.Create? {
        var p := cl.op.principal;
        var n := FirstFree(env.hash, p, secret.data.Keys, cm.data.Keys, ProbeStart(env.hash, p, secret.data.Keys));
        var t := UnusedKey(w.minted.Keys);
        assert ApiKey(t) !in w.minted;
        a := Mint(c, n, ApiKey(t), true);
      } else {
        a := Call(c, true);
      }
    case RecordKey(_, _, _, _) => a := Record(c, 0, true);
    case _ => a := Call(c, true);
  }

  /** The call stands at a request of its own kind. */
  predicate Fits(cl: Client) {
    && (cl.pc.Listing? ==> cl.op.Delete?)
    && (cl.pc.ReadSecret? || cl.pc.ReadConfigMap? || cl.pc.WriteSecret? ==>
          cl.op.Create? || cl.op.Revoke? || cl.op.Delete?)
    && (cl.pc.RecordKey? ==> cl.op.Create?)
    && (cl.pc.ForgetKey? ==> cl.op.Revoke? || cl.op.Delete?)
    && (cl.pc.EnsureRead? ==> cl.op.EnsureSecret? || cl.op.EnsureConfigMap?)
    && (cl.pc.EnsureWriteSecret? ==> cl.op.EnsureSecret?)
    && (cl.pc.EnsureWriteConfigMap? ==> cl.op.EnsureConfigMap?)
  }

  lemma CallMovesOn(env: Env, w: World, c: nat, touch: bool)
    requires Enabled(env, w, Call(c, touch))
    ensures var op, pc' := w.clients[c].op, AfterCall(w, c, touch).clients[c].pc;
      match w.clients[c].pc
      case ReadSecret(_) => pc'.ReadConfigMap? || pc'.Done?
      case ReadConfigMap(_, _) => pc'.WriteSecret? || pc'.Done?
      case WriteSecret(_, _, _) => pc'.ForgetKey? || pc'.ReadSecret? || pc'.Done?
      case ForgetKey(_, _) => pc'.ReadSecret? || pc'.Done?
      case EnsureRead => if op.EnsureSecret? then pc'.EnsureWriteSecret? else pc'.EnsureWriteConfigMap?
      case EnsureWriteSecret(_) => pc'.Done?
      case EnsureWriteConfigMap(_) => pc'.Done?
      case _ => false
  {}

  lemma FitsCall(env: Env, w: World, c: nat, touch: bool)
    requires Enabled(env, w, Call(c, touch)) && Fits(w.clients[c])
    ensures Fits(AfterCall(w, c, touch).clients[c])
  {
    CallHistory(env, w, c, touch);
    CallMovesOn(env, w, c, touch);
    hide AfterCall;
  }

  lemma FitsKept(env: Env, w: World, a: Action, c: nat)
    requires Enabled(env, w, a) && Actor(a) == Some(c) && (c in w.clients ==> Fits(w.clients[c]))
    ensures c in Next(env, w, a).clients && Fits(Next(env, w, a).clients[c])
  {
    hide IsNextSequence;
    match a
    case Call(_, touch) => FitsCall(env, w, c, touch); hide AfterCall;
    case ReplyLost(_, _, _) => hide AfterCall, AfterRecord;
    case _ => hide AfterCall;
  }

  lemma {:induction false} FitsAlways(env: Env, ws: seq<World>, acts: seq<Action>, i: nat, c: nat)
    requires IsRun(env, ws, acts) && i < |ws| && c in ws[i].clients
    ensures Fits(ws[i].clients[c])
  {
    hide Next, Enabled, Fits;
    if i > 0 {
      if c in ws[i - 1].clients { FitsAlways(env, ws, acts, i - 1, c); }
      if Actor(acts[i - 1]) == Some(c) {
        FitsKept(env, ws[i - 1], acts[i - 1], c);
      } else {
        OnlyActorMoves(env, ws[i - 1], acts[i - 1], c);
      }
    }
  }

  // ---------- why a call fails ----------

  /** The object that the call's next request is about is not there. */
  predicate Missing(k: Cluster, op: Op, pc: Pc) {
    var m := ModelOf(op);
    match pc
    case Listing => m !in k.configMaps
    case ReadSecret(_) => m !in k.secrets
    case ReadConfigMap(_, _) => m !in k.configMaps
    case WriteSecret(_, _, _) => m !in k.secrets
    case RecordKey(_, _, _, _) => m !in k.configMaps
    case ForgetKey(_, _) => m !in k.configMaps
    case EnsureWriteSecret(existing) => existing.Some? && m !in k.secrets
    case EnsureWriteConfigMap(found) => found.Some? && m !in k.configMaps
    case _ => false
  }

  /** The call is about to write an object that somebody else has written since it was read. */
  predicate Overtaken(k: Cluster, op: Op, pc: Pc) {
    var m := ModelOf(op);
    match pc
    case WriteSecret(_, secret, _) => m in k.secrets && k.secrets[m].version != secret.version
    case RecordKey(_, cm, _, _) => m in k.configMaps && k.configMaps[m].version != cm.version
    case ForgetKey(_, cm) => m in k.configMaps && k.configMaps[m].version != cm.version
    case EnsureWriteSecret(existing) =>
      existing.Some? && m in k.secrets && k.secrets[m].version != existing.value.version
    case EnsureWriteConfigMap(found) =>
      found.Some? && m in k.configMaps && k.configMaps[m].version != found.value.version
    case _ => false
  }

  /** A revocation finds no such identifier in the Secret that it has read. */
  predicate NotInSecret(op: Op, pc: Pc) {
    (op.Revoke? || op.Delete?) && pc.WriteSecret? && op.id !in pc.secret.data
  }

  /** Which attempt the call is in, counted from 0. */
  function AttemptOf(pc: Pc): nat {
    if pc.ReadSecret? || pc.ReadConfigMap? || pc.WriteSecret? || pc.RecordKey? || pc.ForgetKey? then pc.attempt else 0
  }

  predicate IsEnsure(op: Op) {
    op.EnsureSecret? || op.EnsureConfigMap?
  }

  /** Somebody else has made the object since it was found missing. */
  predicate MadeMeanwhile(k: Cluster, op: Op, pc: Pc) {
    || (pc == EnsureWriteSecret(None) && ModelOf(op) in k.secrets)
    || (pc == EnsureWriteConfigMap(None) && ModelOf(op) in k.configMaps)
  }

  /** Why the call at `pc` goes to `pc'`, as far as errors and retries go. */
  ghost predicate Explained(k: Cluster, op: Op, pc: Pc, pc': Pc) {
    && (pc' == Done(Failed(ObjectNotFound)) <==> Missing(k, op, pc) && !NotInSecret(op, pc))
    && (pc' == Done(Failed(KeyNotFound)) && !pc.Listing? <==> NotInSecret(op, pc))
    && (pc' == Done(Failed(TooManyConflicts)) <==>
          !IsEnsure(op) && Overtaken(k, op, pc) && !NotInSecret(op, pc) && AttemptOf(pc) >= 2)
    && (!IsEnsure(op) && Overtaken(k, op, pc) && !NotInSecret(op, pc) && AttemptOf(pc) < 2 ==>
          pc' == ReadSecret(AttemptOf(pc) + 1))
    && (pc' == Done(Failed(Conflict)) <==> IsEnsure(op) && Overtaken(k, op, pc))
    && (pc' == Done(Failed(AlreadyExists)) <==> MadeMeanwhile(k, op, pc))
    && pc' != Done(Failed(OtherError)) && pc' != Done(Failed(UsernameRequired))
  }

  lemma CallExplained(env: Env, w: World, c: nat, touch: bool)
    requires Enabled(env, w, Call(c, touch)) && Fits(w.clients[c])
    ensures Explained(w.cluster, w.clients[c].op, w.clients[c].pc, AfterCall(w, c, touch).clients[c].pc)
  {}

  lemma MintExplained(env: Env, w: World, a: Action)
    requires Enabled(env, w, a) && a.Mint?
    ensures Explained(w.cluster, w.clients[a.c].op, w.clients[a.c].pc, Next(env, w, a).clients[a.c].pc)
  {
    hide IsNextSequence;
  }

  lemma RecordExplained(env: Env, w: World, c: nat, now: int, touch: bool)
    requires Enabled(env, w, Record(c, now, touch))
    ensures Explained(w.cluster, w.clients[c].op, w.clients[c].pc, AfterRecord(env, w, c, now, touch).clients[c].pc)
  {}

  /** Every error says what was so at the moment it arose.  "Not found" means that the object was not
      there, a conflict sends a call back to its first read until its third attempt, and no call
      fails for other reasons unless a request does. */
  lemma ErrorsExactly(env: Env, w: World, a: Action, c: nat)
    requires Enabled(env, w, a) && Actor(a) == Some(c) && c in w.clients && Fits(w.clients[c])
    requires !a.Fault? && !a.ReplyLost?
    ensures c in Next(env, w, a).clients
    ensures Explained(w.cluster, w.clients[c].op, w.clients[c].pc, Next(env, w, a).clients[c].pc)
    ensures Next(env, w, a).clients[c].pc == Done(Failed(Forbidden)) <==>
      && a.List? && a.entry.Some? && w.clients[c].op.model in w.cluster.configMaps
      && w.cluster.configMaps[w.clients[c].op.model].data[a.entry.value].creator != w.clients[c].op.user
    ensures a.List? && w.clients[c].op.model in w.cluster.configMaps ==>
      (Next(env, w, a).clients[c].pc == Done(Failed(KeyNotFound)) <==> a.entry.None?)
  {
    hide IsNextSequence;
    match a
    case Call(_, touch) =>
      CallExplained(env, w, c, touch);
      CallMovesOn(env, w, c, touch);
      NoneForbidden(env, w, c, touch);
      hide AfterCall, Explained;
    case Mint(_, _, _, _) => MintExplained(env, w, a); hide Explained;
    case Record(_, now, touch) => RecordExplained(env, w, c, now, touch); hide Explained;
    case List(_, _) =>
  }

  lemma NoneForbidden(env: Env, w: World, c: nat, touch: bool)
    requires Enabled(env, w, Call(c, touch))
    ensures AfterCall(w, c, touch).clients[c].pc != Done(Failed(Forbidden))
  {}

  // ---------- attempts ----------

  /** A call begins with its first attempt, a DELETE with its listing; a create without a user name
      ends at once. */
  lemma StartExactly(env: Env, w: World, c: nat, op: Op)
    requires Enabled(env, w, Begin(c, op))
    ensures c in Next(env, w, Begin(c, op)).clients && Next(env, w, Begin(c, op)).cluster == w.cluster
    ensures Next(env, w, Begin(c, op)).clients[c].pc ==
            match op
            case Create(p, _) => if p.user == "" then Done(Failed(UsernameRequired)) else ReadSecret(0)
            case Revoke(_, _) => ReadSecret(0)
            case Delete(_, _, _, _) => Listing
            case _ => EnsureRead
  {}

  /** Call `c`'s write in attempt `n` came too late, at step `t`. */
  ghost predicate ConflictAt(ws: seq<World>, acts: seq<Action>, t: nat, c: nat, n: nat) {
    && t < |acts| && t < |ws| && Actor(acts[t]) == Some(c) && c in ws[t].clients
    && AttemptOf(ws[t].clients[c].pc) == n && Overtaken(ws[t].cluster, ws[t].clients[c].op, ws[t].clients[c].pc)
  }

  ghost predicate HadConflict(ws: seq<World>, acts: seq<Action>, i: nat, c: nat, n: nat) {
    exists t: nat :: t < i && ConflictAt(ws, acts, t, c, n)
  }

  /** There has been such a conflict in each of the first `n` attempts. */
  ghost predicate Conflicts(ws: seq<World>, acts: seq<Action>, i: nat, c: nat, n: nat) {
    forall k: nat :: k < n ==> HadConflict(ws, acts, i, c, k)
  }

  /** The attempts that the call has used up. */
  function Spent(pc: Pc): nat {
    if pc == Done(Failed(TooManyConflicts)) then 3 else AttemptOf(pc)
  }

  lemma MintSpends(env: Env, w: World, a: Action)
    requires Enabled(env, w, a) && a.Mint?
    ensures Spends(w, a, a.c, Next(env, w, a).clients[a.c].pc)
  {
    hide IsNextSequence;
  }

  lemma CallSpends(env: Env, w: World, c: nat, touch: bool)
    requires Enabled(env, w, Call(c, touch))
    ensures Spends(w, Call(c, touch), c, AfterCall(w, c, touch).clients[c].pc)
  {}

  lemma RecordSpends(env: Env, w: World, c: nat, now: int, touch: bool)
    requires Enabled(env, w, Record(c, now, touch))
    ensures Spends(w, Record(c, now, touch), c, AfterRecord(env, w, c, now, touch).clients[c].pc)
  {}

  /** A step uses up no attempt, or one, by a conflict. */
  ghost predicate Spends(w: World, a: Action, c: nat, pc': Pc) {
    c in w.clients ==>
      var cl := w.clients[c];
      || Spent(pc') <= AttemptOf(cl.pc)
      || (Overtaken(w.cluster, cl.op, cl.pc) && Spent(pc') <= AttemptOf(cl.pc) + 1)
  }

  lemma StepSpends(env: Env, w: World, a: Action, c: nat)
    requires Enabled(env, w, a) && Actor(a) == Some(c)
    ensures c in Next(env, w, a).clients && Spends(w, a, c, Next(env, w, a).clients[c].pc)
    ensures c !in w.clients ==> Spent(Next(env, w, a).clients[c].pc) == 0
    ensures c in w.clients ==> !w.clients[c].pc.Done?
  {
    hide IsNextSequence;
    match a
    case Call(_, touch) => CallSpends(env, w, c, touch); hide AfterCall, Spends;
    case Mint(_, _, _, _) => MintSpends(env, w, a); hide Spends;
    case Record(_, now, touch) => RecordSpends(env, w, c, now, touch); hide Spends;
    case ReplyLost(_, _, _) => hide AfterCall, AfterRecord;
    case _ =>
  }

  /** Over every run: a call in its second or third attempt has had a conflict in each attempt before,
      and one that has given up has had three. */
  lemma {:induction false} ConflictInEachAttempt(env: Env, ws: seq<World>, acts: seq<Action>, i: nat, c: nat)
    requires IsRun(env, ws, acts) && i < |ws| && c in ws[i].clients
    ensures Conflicts(ws, acts, i, c, Spent(ws[i].clients[c].pc))
  {
    hide Next, Enabled, Spends, Overtaken, Spent, AttemptOf;
    if i > 0 {
      if Actor(acts[i - 1]) == Some(c) {
        StepSpends(env, ws[i - 1], acts[i - 1], c);
        if c in ws[i - 1].clients {
          ConflictInEachAttempt(env, ws, acts, i - 1, c);
          OneMoreConflict(ws, acts, i, c);
        } else {
          assert Spent(ws[i].clients[c].pc) == 0;
        }
      } else {
        OnlyActorMoves(env, ws[i - 1], acts[i - 1], c);
        ConflictInEachAttempt(env, ws, acts, i - 1, c);
        ConflictsStay(ws, acts, i, c, Spent(ws[i].clients[c].pc));
      }
    }
  }

  lemma ConflictsStay(ws: seq<World>, acts: seq<Action>, i: nat, c: nat, n: nat)
    requires i > 0 && Conflicts(ws, acts, i - 1, c, n)
    ensures Conflicts(ws, acts, i, c, n)
  {
    hide ConflictAt;
    forall k: nat | k < n ensures HadConflict(ws, acts, i, c, k) {
      assert HadConflict(ws, acts, i - 1, c, k);
    }
  }

  lemma OneMoreConflict(ws: seq<World>, acts: seq<Action>, i: nat, c: nat)
    requires 0 < i < |ws| && i <= |acts| && Actor(acts[i - 1]) == Some(c)
    requires c in ws[i - 1].clients && c in ws[i].clients && !ws[i - 1].clients[c].pc.Done?
    requires Conflicts(ws, acts, i - 1, c, Spent(ws[i - 1].clients[c].pc))
    requires Spends(ws[i - 1], acts[i - 1], c, ws[i].clients[c].pc)
    ensures Conflicts(ws, acts, i, c, Spent(ws[i].clients[c].pc))
  {
    var n := AttemptOf(ws[i - 1].clients[c].pc);
    hide Overtaken;
    forall k: nat | k < Spent(ws[i].clients[c].pc) ensures HadConflict(ws, acts, i, c, k) {
      if k < n {
        assert HadConflict(ws, acts, i - 1, c, k);
        var t: nat :| t < i - 1 && ConflictAt(ws, acts, t, c, k);
      } else {
        assert ConflictAt(ws, acts, i - 1, c, k);
      }
    }
  }

  // ---------- CreateKey ----------

  lemma MintStep(env: Env, w: World, a: Action, c: nat, p: Principal)
    requires Enabled(env, w, a) && Actor(a) == Some(c) && c in w.clients && w.clients[c].pc.WriteSecret?
    requires !a.Fault? && !a.ReplyLost? && w.clients[c].op.Create? && w.clients[c].op.principal == p
    requires p.model in w.cluster.secrets && w.cluster.secrets[p.model] == w.clients[c].pc.secret
    ensures a.Mint?
    ensures var pc := w.clients[c].pc;
      IsNextSequence(env.hash, p, pc.secret.data.Keys, pc.cm.data.Keys, a.sequence)
    ensures var w' := Next(env, w, a); var pc, id := w.clients[c].pc, ClientId(env.hash, p, a.sequence);
      && SecretIs(w'.cluster, p.model, pc.secret.data[id := a.key], pc.secret.labels)
      && w'.cluster.configMaps == w.cluster.configMaps && OthersSame(w.cluster, w'.cluster, p.model)
      && c in w'.clients && w'.clients[c].op == w.clients[c].op
      && w'.clients[c].pc == RecordKey(pc.attempt, pc.cm, id, a.key)
  {
    hide IsNextSequence;
  }

  lemma RecordStep(env: Env, w: World, a: Action, c: nat, p: Principal)
    requires Enabled(env, w, a) && Actor(a) == Some(c) && c in w.clients && w.clients[c].pc.RecordKey?
    requires !a.Fault? && !a.ReplyLost? && w.clients[c].op.Create? && w.clients[c].op.principal == p
    requires p.model in w.cluster.configMaps && w.cluster.configMaps[p.model] == w.clients[c].pc.cm
    ensures a.Record?
    ensures var w' := Next(env, w, a); var pc, op := w.clients[c].pc, w.clients[c].op;
      var info := KeyInfo(pc.id, p.user, op.description, a.now, p.model, env.namespace);
      && ConfigMapIs(w'.cluster, p.model, pc.cm.data[pc.id := info], pc.cm.labels)
      && w'.cluster.secrets == w.cluster.secrets && OthersSame(w.cluster, w'.cluster, p.model)
      && c in w'.clients && w'.clients[c].pc == Done(Created(pc.id, pc.key))
  {}

  /** What a CreateKey leaves: the key under the next free identifier, its metadata, all labels and
      all other data as they were. */
  ghost predicate CreatedFor(env: Env, k: Cluster, k': Cluster, p: Principal, description: string, id: string,
                             key: ApiKey) {
    && p.model in k.secrets && p.model in k.configMaps
    && (exists n :: IsNextSequence(env.hash, p, k.secrets[p.model].data.Keys, k.configMaps[p.model].data.Keys, n)
          && id == ClientId(env.hash, p, n))
    && SecretIs(k', p.model, k.secrets[p.model].data[id := key], k.secrets[p.model].labels)
    && (exists now :: ConfigMapIs(k', p.model,
          k.configMaps[p.model].data[id := KeyInfo(id, p.user, description, now, p.model, env.namespace)],
          k.configMaps[p.model].labels))
    && OthersSame(k, k', p.model)
  }

  /** A CreateKey for a named user whose model has both objects, with no failing request and nobody
      else writing, succeeds after its two reads and two writes, and leaves exactly that. */
  lemma UndisturbedCreate(env: Env, ws: seq<World>, acts: seq<Action>, c: nat, p: Principal, description: string)
    requires Undisturbed(env, ws, acts, 0, c) && |acts| > 0 && acts[0] == Begin(c, Create(p, description))
    requires p.user != "" && p.model in ws[0].cluster.secrets && p.model in ws[0].cluster.configMaps
    requires c in ws[|acts|].clients && ws[|acts|].clients[c].pc.Done?
    ensures |acts| == 5 && acts[3].Mint?
    ensures var out := ws[5].clients[c].pc.outcome;
      out.Created? && out.key == acts[3].key
      && CreatedFor(env, ws[0].cluster, ws[5].cluster, p, description, out.id, out.key)
  {
    var k := ws[0].cluster;
    assert ws[1].cluster == k && ws[1].clients[c] == Client(Create(p, description), ReadSecret(0), [], []);
    ReadsBoth(env, ws, acts, 1, c);
    hide Next, Enabled;
    UndisturbedStep(env, ws, acts, 3, c);
    MintStep(env, ws[3], acts[3], c, p);
    UndisturbedStep(env, ws, acts, 4, c);
    RecordStep(env, ws[4], acts[4], c, p);
    UndisturbedEnd(env, ws, acts, 5, c);
    OthersSameTrans(k, ws[4].cluster, ws[5].cluster, p.model);
    var id := ClientId(env.hash, p, acts[3].sequence);
    assert ConfigMapIs(ws[5].cluster, p.model,
      k.configMaps[p.model].data[id := KeyInfo(id, p.user, description, acts[4].now, p.model, env.namespace)],
      k.configMaps[p.model].labels);
  }

  lemma OthersSameTrans(k: Cluster, k': Cluster, k'': Cluster, m: string)
    requires OthersSame(k, k', m) && OthersSame(k', k'', m)
    ensures OthersSame(k, k'', m)
  {}

  // ---------- RevokeKey and DELETE ----------

  lemma RemoveStep(env: Env, w: World, a: Action, c: nat)
    requires Enabled(env, w, a) && Actor(a) == Some(c) && c in w.clients && w.clients[c].pc.WriteSecret?
    requires !a.Fault? && !a.ReplyLost? && (w.clients[c].op.Revoke? || w.clients[c].op.Delete?)
    requires w.clients[c].op.model in w.cluster.secrets
    requires w.cluster.secrets[w.clients[c].op.model] == w.clients[c].pc.secret
    ensures var w' := Next(env, w, a); var pc, op := w.clients[c].pc, w.clients[c].op;
      if op.id !in pc.secret.data then w'.cluster == w.cluster && w'.clients[c].pc == Done(Failed(KeyNotFound))
      else
        && SecretIs(w'.cluster, op.model, pc.secret.data - {op.id}, pc.secret.labels)
        && w'.cluster.configMaps == w.cluster.configMaps && OthersSame(w.cluster, w'.cluster, op.model)
        && w'.clients[c].pc == ForgetKey(pc.attempt, pc.cm)
    ensures c in Next(env, w, a).clients && Next(env, w, a).clients[c].op == w.clients[c].op
  {}

  lemma ForgetStep(env: Env, w: World, a: Action, c: nat)
    requires Enabled(env, w, a) && Actor(a) == Some(c) && c in w.clients && w.clients[c].pc.ForgetKey?
    requires !a.Fault? && !a.ReplyLost? && (w.clients[c].op.Revoke? || w.clients[c].op.Delete?)
    requires w.clients[c].op.model in w.cluster.configMaps
    requires w.cluster.configMaps[w.clients[c].op.model] == w.clients[c].pc.cm
    ensures var w' := Next(env, w, a); var pc, op := w.clients[c].pc, w.clients[c].op;
      && ConfigMapIs(w'.cluster, op.model, pc.cm.data - {op.id}, pc.cm.labels)
      && w'.cluster.secrets == w.cluster.secrets && OthersSame(w.cluster, w'.cluster, op.model)
      && c in w'.clients && w'.clients[c].pc == Done(Revoked)
  {}

  /** What a revocation leaves: both objects without that identifier, all labels and all other data as
      they were. */
  ghost predicate RevokedFrom(k: Cluster, k': Cluster, m: string, id: string) {
    && m in k.secrets && m in k.configMaps && id in k.secrets[m].data
    && SecretIs(k', m, k.secrets[m].data - {id}, k.secrets[m].labels)
    && ConfigMapIs(k', m, k.configMaps[m].data - {id}, k.configMaps[m].labels)
    && OthersSame(k, k', m)
  }

  /** With no failing request and nobody else writing, a revocation whose model has both objects
      succeeds and leaves exactly that, or finds no such key and changes nothing. */
  lemma UndisturbedRemoval(env: Env, ws: seq<World>, acts: seq<Action>, i: nat, c: nat, m: string, id: string)
    requires Undisturbed(env, ws, acts, i, c) && c in ws[i].clients && ws[i].clients[c].pc == ReadSecret(0)
    requires var op := ws[i].clients[c].op; (op.Revoke? || op.Delete?) && op.model == m && op.id == id
    requires m in ws[i].cluster.secrets && m in ws[i].cluster.configMaps
    requires c in ws[|acts|].clients && ws[|acts|].clients[c].pc.Done?
    ensures var k, k', pc := ws[i].cluster, ws[|acts|].cluster, ws[|acts|].clients[c].pc;
      if id in k.secrets[m].data then pc == Done(Revoked) && RevokedFrom(k, k', m, id)
      else pc == Done(Failed(KeyNotFound)) && k' == k
  {
    hide Next, Enabled;
    var k := ws[i].cluster;
    ReadsBoth(env, ws, acts, i, c);
    UndisturbedStep(env, ws, acts, i + 2, c);
    RemoveStep(env, ws[i + 2], acts[i + 2], c);
    if id in k.secrets[m].data {
      UndisturbedStep(env, ws, acts, i + 3, c);
      ForgetStep(env, ws[i + 3], acts[i + 3], c);
      UndisturbedEnd(env, ws, acts, i + 4, c);
      OthersSameTrans(k, ws[i + 3].cluster, ws[i + 4].cluster, m);
    } else {
      UndisturbedEnd(env, ws, acts, i + 3, c);
    }
  }

  lemma UndisturbedRevoke(env: Env, ws: seq<World>, acts: seq<Action>, c: nat, m: string, id: string)
    requires Undisturbed(env, ws, acts, 0, c) && |acts| > 0 && acts[0] == Begin(c, Revoke(m, id))
    requires m in ws[0].cluster.secrets && m in ws[0].cluster.configMaps
    requires c in ws[|acts|].clients && ws[|acts|].clients[c].pc.Done?
    ensures var k, k', pc := ws[0].cluster, ws[|acts|].cluster, ws[|acts|].clients[c].pc;
      if id in k.secrets[m].data then pc == Done(Revoked) && RevokedFrom(k, k', m, id)
      else pc == Done(Failed(KeyNotFound)) && k' == k
  {
    assert ws[1].cluster == ws[0].cluster && ws[1].clients[c] == Client(Revoke(m, id), ReadSecret(0), [], []);
    hide Next, Enabled;
    UndisturbedRemoval(env, ws, acts, 1, c, m, id);
  }

  lemma ListStep(env: Env, w: World, a: Action, c: nat)
    requires Inv(env, w) && Enabled(env, w, a) && Actor(a) == Some(c) && c in w.clients
    requires w.clients[c].op.Delete? && w.clients[c].pc.Listing? && !a.Fault? && !a.ReplyLost?
    requires w.clients[c].op.model in w.cluster.configMaps
    ensures var op := w.clients[c].op; var entries := Metadata(w.cluster, op.model);
      Next(env, w, a) == At(w, c,
        if op.namespace != env.namespace || op.id !in entries then Done(Failed(KeyNotFound))
        else if entries[op.id].creator != op.user then Done(Failed(Forbidden))
        else ReadSecret(0))
  {
    hide Copies, GoodSecrets, GoodClients;
    var op := w.clients[c].op;
    var entries := Metadata(w.cluster, op.model);
    forall k | k in entries ensures Matches(entries[k], op) <==> k == op.id && op.namespace == env.namespace {
      assert GoodInfo(env, op.model, k, entries[k]);
    }
  }

  /** The whole DELETE, undisturbed: 404 for another namespace or an identifier without an entry, 403
      for another user's key, and for the owner the revocation: with the credential and the entry
      gone, or 500 and nothing changed when the credential is already missing. */
  lemma UndisturbedDelete(env: Env, ws: seq<World>, acts: seq<Action>, c: nat, user: string, namespace: string,
                          m: string, id: string)
    requires Undisturbed(env, ws, acts, 0, c) && Inv(env, ws[0])
    requires |acts| > 0 && acts[0] == Begin(c, Delete(user, namespace, m, id))
    requires m in ws[0].cluster.secrets && m in ws[0].cluster.configMaps
    requires c in ws[|acts|].clients && ws[|acts|].clients[c].pc.Done?
    ensures var k, k', pc := ws[0].cluster, ws[|acts|].cluster, ws[|acts|].clients[c].pc;
      var entries := k.configMaps[m].data;
      if namespace != env.namespace || id !in entries then pc == Done(Failed(KeyNotFound)) && k' == k
      else if entries[id].creator != user then pc == Done(Failed(Forbidden)) && k' == k
      else if id !in k.secrets[m].data then pc == Done(Failed(KeyNotFound)) && k' == k
      else pc == Done(Revoked) && RevokedFrom(k, k', m, id)
  {
    var op := Delete(user, namespace, m, id);
    assert ws[1].cluster == ws[0].cluster && ws[1].clients[c] == Client(op, Listing, [], []);
    StepKeepsInv(env, ws[0], acts[0]);
    hide Next, Enabled, Inv;
    UndisturbedStep(env, ws, acts, 1, c);
    ListStep(env, ws[1], acts[1], c);
    if ws[2].clients[c].pc.Done? {
      UndisturbedEnd(env, ws, acts, 2, c);
    } else {
      UndisturbedRemoval(env, ws, acts, 2, c, m, id);
    }
  }

  // ---------- the operator's label updates ----------

  lemma EnsureReads(env: Env, w: World, a: Action, c: nat)
    requires Enabled(env, w, a) && Actor(a) == Some(c) && c in w.clients && w.clients[c].pc.EnsureRead?
    requires !a.Fault? && !a.ReplyLost?
    ensures var k, op := w.cluster, w.clients[c].op;
      Next(env, w, a) == At(w, c,
        if op.EnsureSecret? then
          EnsureWriteSecret(if op.model in k.secrets then Some(k.secrets[op.model]) else None)
        else
          EnsureWriteConfigMap(if ModelOf(op) in k.configMaps then Some(k.configMaps[ModelOf(op)]) else None))
  {}

  lemma EnsureWrites(env: Env, w: World, a: Action, c: nat)
    requires Enabled(env, w, a) && Actor(a) == Some(c) && c in w.clients && !a.Fault? && !a.ReplyLost?
    requires var k, op := w.cluster, w.clients[c].op; var m := ModelOf(op);
      || (op.EnsureSecret? && w.clients[c].pc == EnsureWriteSecret(if m in k.secrets then Some(k.secrets[m]) else None))
      || (op.EnsureConfigMap?
          && w.clients[c].pc == EnsureWriteConfigMap(if m in k.configMaps then Some(k.configMaps[m]) else None))
    ensures c in Next(env, w, a).clients && Next(env, w, a).clients[c].pc == Done(Ensured)
    ensures LabelledAsAsked(w.clients[c].op, w.cluster, Next(env, w, a).cluster)
    ensures OthersSame(w.cluster, Next(env, w, a).cluster, ModelOf(w.clients[c].op))
    ensures if w.clients[c].op.EnsureSecret? then Next(env, w, a).cluster.configMaps == w.cluster.configMaps
            else Next(env, w, a).cluster.secrets == w.cluster.secrets
  {}

  /** With no failing request and nobody else writing, a label update succeeds: the object then has
      exactly the wanted labels, and its data as before or, if it was not there, none. */
  lemma UndisturbedEnsure(env: Env, ws: seq<World>, acts: seq<Action>, c: nat, op: Op)
    requires Undisturbed(env, ws, acts, 0, c) && |acts| > 0 && acts[0] == Begin(c, op) && IsEnsure(op)
    requires c in ws[|acts|].clients && ws[|acts|].clients[c].pc.Done?
    ensures ws[|acts|].clients[c].pc == Done(Ensured)
    ensures LabelledAsAsked(op, ws[0].cluster, ws[|acts|].cluster)
    ensures OthersSame(ws[0].cluster, ws[|acts|].cluster, ModelOf(op))
    ensures if op.EnsureSecret? then ws[|acts|].cluster.configMaps == ws[0].cluster.configMaps
            else ws[|acts|].cluster.secrets == ws[0].cluster.secrets
  {
    assert ws[1].cluster == ws[0].cluster && ws[1].clients[c] == Client(op, EnsureRead, [], []);
    UndisturbedStep(env, ws, acts, 1, c);
    EnsureReads(env, ws[1], acts[1], c);
    hide Next, Enabled, LabelledAsAsked, OthersSame;
    UndisturbedStep(env, ws, acts, 2, c);
    EnsureWrites(env, ws[2], acts[2], c);
    UndisturbedEnd(env, ws, acts, 3, c);
  }
}
