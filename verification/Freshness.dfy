/** How the external policies follow the Secrets: two controllers, each with a work queue, watch the
    api-keys Secrets and re-render every model's policy (operator/internal/controller/apikeys.go,
    llmmodel_controller.go, passthroughmodel_controller.go).

    The policies are a derived index over the Secrets.  The theorem says when it can be stale: only
    while something is still going to refresh it. */
module Freshness {
  import opened Wrappers
  import opened Text
  import Ledger
  import LedgerRuns
  import opened Policies

  datatype Kind = LLM | Passthrough

  datatype Request = Request(kind: Kind, name: string)

  datatype Progress = Started | HasIds(ids: set<string>) | HasBoth(ids: set<string>, names: set<string>)

  /** A reconcile pass: whether the model it fetched wants an external policy, and what it has read. */
  datatype Pass = Pass(wanted: bool, progress: Progress)

  /** `pending` are the Secret events not yet handed to a controller's watch handler; `later` are
      the requests waiting for RequeueAfter or for an error's back-off. */
  datatype State = State(
    secrets: Secrets,
    models: set<Request>,
    external: set<Request>,
    policies: map<Request, Policy>,
    pending: multiset<Kind>,
    queue: set<Request>,
    later: set<Request>,
    working: map<Request, Pass>)

  datatype Action =
    | ChangeSecret(name: string, now: Option<KeySecret>)  // anybody creates, updates or deletes a Secret
    | Deliver(kind: Kind, listed: bool)                   // the watch handler runs; its List may fail
    | EditModel(r: Request, wanted: bool)                 // a model is created or edited
    | RemoveModel(r: Request)
    | Take(r: Request)                                    // a worker takes a request and fetches the model
    | Fire(r: Request)                                    // a timed requeue comes due
    | ReadIds(r: Request)
    | ReadNames(r: Request)
    | Postpone(r: Request)                                // the pass returns an error or asks to be requeued
    | Skip(r: Request)                                    // the pass ends with no policy to write
    | Write(r: Request, p: Policy)
    | WriteFails(r: Request)                              // the policy write fails

  predicate Wanted(s: State, r: Request) {
    r in s.models && r in s.external
  }

  /** managedByOperatorPredicate looks at the event's object: the new one, or the deleted one. */
  predicate Visible(s: State, name: string, now: Option<KeySecret>) {
    match now
    case Some(o) => o.managed
    case None => name in s.secrets && s.secrets[name].managed
  }

  ghost predicate Enabled(s: State, a: Action) {
    match a
    case ChangeSecret(_, _) => true
    case Deliver(kind, _) => kind in s.pending
    case EditModel(_, _) => true
    case RemoveModel(r) => r in s.models
    case Take(r) => r in s.queue && r !in s.working
    case Fire(r) => r in s.later
    case ReadIds(r) => r in s.working && s.working[r].wanted && s.working[r].progress.Started?
    case ReadNames(r) => r in s.working && s.working[r].wanted && s.working[r].progress.HasIds?
    case Postpone(r) => r in s.working
    case Skip(r) => r in s.working && !s.working[r].wanted
    case Write(r, p) =>
      && r in s.working && s.working[r].wanted && s.working[r].progress.HasBoth?
      && RenderedFrom(p, s.working[r].progress.ids, s.working[r].progress.names)
    case WriteFails(r) => r in s.working && s.working[r].wanted && s.working[r].progress.HasBoth?
  }

  function Changed(secrets: Secrets, name: string, now: Option<KeySecret>): Secrets {
    if now.Some? then secrets[name := now.value] else secrets - {name}
  }

  function OfKind(models: set<Request>, kind: Kind): set<Request> {
    set r | r in models && r.kind == kind
  }

  function Next(s: State, a: Action): State
    requires Enabled(s, a)
  {
    match a
    case ChangeSecret(name, now) =>
      s.(secrets := Changed(s.secrets, name, now),
         pending := s.pending + if HasSuffix(name, SECRET_SUFFIX) && Visible(s, name, now)
                                then multiset{LLM, Passthrough} else multiset{})
    case Deliver(kind, listed) =>
      s.(pending := s.pending - multiset{kind}, queue := if listed then s.queue + OfKind(s.models, kind) else s.queue)
    case EditModel(r, wanted) =>
      s.(models := s.models + {r}, external := if wanted then s.external + {r} else s.external - {r},
         queue := s.queue + {r})
    case RemoveModel(r) => s.(models := s.models - {r}, queue := s.queue + {r})
    case Take(r) => s.(queue := s.queue - {r}, working := s.working[r := Pass(Wanted(s, r), Started)])
    case Fire(r) => s.(later := s.later - {r}, queue := s.queue + {r})
    case ReadIds(r) => s.(working := s.working[r := s.working[r].(progress := HasIds(OwnIds(s.secrets, r.name)))])
    case ReadNames(r) =>
      var progress := HasBoth(s.working[r].progress.ids, PooledNames(s.secrets, r.name));
      s.(working := s.working[r := s.working[r].(progress := progress)])
    case Postpone(r) => s.(working := s.working - {r}, later := s.later + {r})
    case Skip(r) => s.(working := s.working - {r})
    case Write(r, p) => s.(working := s.working - {r}, policies := s.policies[r := p])
    case WriteFails(r) =>
      s.(working := s.working - {r}, later := if r.kind.Passthrough? then s.later + {r} else s.later)
  }

  /** enqueueAllModelsForAPIKeySecret, for one kind: nothing for another Secret or a failed List,
      otherwise a request for every listed model. */
  method EnqueueAllModels(secretName: string, kind: Kind, listed: Option<seq<string>>) returns (reqs: seq<Request>)
    ensures if HasSuffix(secretName, SECRET_SUFFIX) && listed.Some? then
        |reqs| == |listed.value| && forall i :: 0 <= i < |reqs| ==> reqs[i] == Request(kind, listed.value[i])
      else reqs == []
  {
    reqs := [];
    if !HasSuffix(secretName, SECRET_SUFFIX) || listed.None? { return; }
    for i := 0 to |listed.value|
      invariant |reqs| == i && forall j :: 0 <= j < i ==> reqs[j] == Request(kind, listed.value[j])
    {
      reqs := reqs + [Request(kind, listed.value[i])];
    }
  }

  // ---------- freshness ----------

  ghost predicate UpToDate(s: State, r: Request) {
    r in s.policies && IsRendering(s.policies[r], s.secrets, r.name)
  }

  /** What the pass has read is still so. */
  ghost predicate CurrentPass(s: State, r: Request, p: Pass) {
    && p.wanted == Wanted(s, r)
    && (p.wanted ==>
          match p.progress
          case Started => true
          case HasIds(ids) => ids == OwnIds(s.secrets, r.name)
          case HasBoth(ids, names) => ids == OwnIds(s.secrets, r.name) && names == PooledNames(s.secrets, r.name))
  }

  /** Another pass over `r` is certain. */
  ghost predicate WillRun(s: State, r: Request) {
    r in s.queue || r in s.later || (r.kind in s.pending && r in s.models)
  }

  /** The policy is right, or a pass that will set it right is coming or under way. */
  ghost predicate Fresh(s: State, r: Request) {
    Wanted(s, r) ==>
      || UpToDate(s, r)
      || WillRun(s, r)
      || (r in s.working && CurrentPass(s, r, s.working[r]))
  }

  ghost predicate PassesHonest(s: State) {
    forall r :: r in s.working ==> WillRun(s, r) || CurrentPass(s, r, s.working[r])
  }

  ghost predicate Inv(s: State) {
    PassesHonest(s) && forall r :: Fresh(s, r)
  }

  ghost predicate Initial(s: State) {
    s.models == {} && s.working == map[]
  }

  /** The change leaves what the policy of `model` is rendered from as it was. */
  ghost predicate SameInputs(secrets: Secrets, after: Secrets, model: string) {
    OwnIds(after, model) == OwnIds(secrets, model) && PooledNames(after, model) == PooledNames(secrets, model)
  }

  /** The change raises an event that both watches pass on. */
  predicate Noticed(s: State, name: string, now: Option<KeySecret>) {
    HasSuffix(name, SECRET_SUFFIX) && Visible(s, name, now)
  }

  /** What the theorem needs of the surroundings: List succeeds, an LLMModel's policy write
      succeeds, and a change of a Secret raises an event or bears on no wanted policy. */
  ghost predicate Benign(s: State, a: Action) {
    match a
    case ChangeSecret(name, now) =>
      Noticed(s, name, now) || forall r | Wanted(s, r) :: SameInputs(s.secrets, Changed(s.secrets, name, now), r.name)
    case Deliver(_, listed) => listed
    case WriteFails(r) => r.kind.Passthrough?
    case _ => true
  }

  lemma UnpooledSecret(secrets: Secrets, name: string, now: Option<KeySecret>, model: string)
    requires !Pooled(secrets, name) && !Pooled(Changed(secrets, name, now), name)
    ensures PooledNames(Changed(secrets, name, now), model) == PooledNames(secrets, model)
  {
    var after := Changed(secrets, name, now);
    forall n ensures (n in after && Pooled(after, n)) <==> (n in secrets && Pooled(secrets, n)) {}
  }

  /** A Secret that no policy pools, before or after, and that is no wanted model's own may change
      at will: unrelated names, and other people's unlabelled "...-api-keys". */
  lemma ForeignSecretIsBenign(s: State, name: string, now: Option<KeySecret>)
    requires !Pooled(s.secrets, name) && !Pooled(Changed(s.secrets, name, now), name)
    requires forall r :: Wanted(s, r) ==> APIKeySecretName(r.name) != name
    ensures Benign(s, ChangeSecret(name, now))
  {
    forall r | Wanted(s, r) ensures SameInputs(s.secrets, Changed(s.secrets, name, now), r.name) {
      UnpooledSecret(s.secrets, name, now, r.name);
    }
  }

  lemma ChangeKeepsInv(s: State, name: string, now: Option<KeySecret>)
    requires Inv(s) && Benign(s, ChangeSecret(name, now))
    ensures Inv(Next(s, ChangeSecret(name, now)))
  {
    hide OwnIds, PooledNames, RenderedFrom, Changed;
    var s' := Next(s, ChangeSecret(name, now));
    assert forall r: Request :: r.kind == LLM || r.kind == Passthrough;
    forall r ensures Fresh(s', r) {
      assert Fresh(s, r);
      if Wanted(s, r) && !Noticed(s, name, now) { assert SameInputs(s.secrets, s'.secrets, r.name); }
    }
    forall r | r in s'.working ensures WillRun(s', r) || CurrentPass(s', r, s'.working[r]) {
      assert WillRun(s, r) || CurrentPass(s, r, s.working[r]);
      if Wanted(s, r) && !Noticed(s, name, now) { assert SameInputs(s.secrets, s'.secrets, r.name); }
    }
  }

  lemma StepKeepsPasses(s: State, a: Action)
    requires Inv(s) && Enabled(s, a) && Benign(s, a) && !a.ChangeSecret?
    ensures PassesHonest(Next(s, a))
  {
    hide Fresh, OwnIds, PooledNames, RenderedFrom;
    var s' := Next(s, a);
    forall r | r in s'.working ensures WillRun(s', r) || CurrentPass(s', r, s'.working[r]) {
      if r in s.working { assert WillRun(s, r) || CurrentPass(s, r, s.working[r]); }
    }
  }

  ghost predicate HonestAt(s: State, r: Request) {
    r in s.working ==> WillRun(s, r) || CurrentPass(s, r, s.working[r])
  }

  lemma PassStepKeepsFresh(s: State, a: Action, r: Request)
    requires Fresh(s, r) && HonestAt(s, r) && Enabled(s, a) && Benign(s, a)
    requires a.Take? || a.ReadIds? || a.ReadNames? || a.Postpone? || a.Skip? || a.Write? || a.WriteFails?
    ensures Fresh(Next(s, a), r)
  {
    hide OwnIds, PooledNames, RenderedFrom;
  }

  lemma OtherStepKeepsFresh(s: State, a: Action, r: Request)
    requires Fresh(s, r) && HonestAt(s, r) && Enabled(s, a) && Benign(s, a)
    requires a.Deliver? || a.EditModel? || a.RemoveModel? || a.Fire?
    ensures Fresh(Next(s, a), r)
  {
    hide OwnIds, PooledNames, IsRendering;
  }

  lemma StepKeepsFresh(s: State, a: Action, r: Request)
    requires Inv(s) && Enabled(s, a) && Benign(s, a) && !a.ChangeSecret?
    ensures Fresh(Next(s, a), r)
  {
    assert Fresh(s, r);
    assert HonestAt(s, r);
    hide Next, Enabled, Benign, Inv, Fresh, HonestAt;
    if a.Deliver? || a.EditModel? || a.RemoveModel? || a.Fire? {
      OtherStepKeepsFresh(s, a, r);
    } else {
      PassStepKeepsFresh(s, a, r);
    }
  }

  lemma StepKeepsInv(s: State, a: Action)
    requires Inv(s) && Enabled(s, a) && Benign(s, a)
    ensures Inv(Next(s, a))
  {
    hide Next, Enabled;
    if a.ChangeSecret? {
      ChangeKeepsInv(s, a.name, a.now);
    } else {
      StepKeepsPasses(s, a);
      forall r { StepKeepsFresh(s, a, r); }
    }
  }

  ghost predicate IsRun(ss: seq<State>, acts: seq<Action>) {
    && |ss| == |acts| + 1 && Initial(ss[0])
    && forall j :: 0 <= j < |acts| ==> Enabled(ss[j], acts[j]) && ss[j + 1] == Next(ss[j], acts[j])
  }

  /** Policy freshness: in every benign run, for every model of either kind. */
  lemma {:induction false} AlwaysFresh(ss: seq<State>, acts: seq<Action>, i: nat)
    requires IsRun(ss, acts) && i < |ss|
    requires forall j :: 0 <= j < |acts| ==> Benign(ss[j], acts[j])
    ensures Inv(ss[i])
  {
    hide Next, Enabled;
    if i > 0 {
      AlwaysFresh(ss, acts, i - 1);
      StepKeepsInv(ss[i - 1], acts[i - 1]);
    }
  }

  /** Once the controllers are idle, every policy is the rendering of the current Secrets. */
  lemma IdleMeansUpToDate(s: State, r: Request)
    requires Inv(s) && Wanted(s, r)
    requires s.queue == {} && s.later == {} && s.pending == multiset{} && s.working == map[]
    ensures UpToDate(s, r)
  {
    assert Fresh(s, r);
  }

  /** The two invariants together: with idle controllers over the Secrets of a reachable ledger
      state, the policies in force admit on each external model's route exactly the model's own keys. */
  lemma IdleGatewayIsolates(s: State, r: Request, env: Ledger.Env, ws: seq<Ledger.World>, acts: seq<Ledger.Action>,
                            i: nat)
    requires Inv(s) && Wanted(s, r)
    requires s.queue == {} && s.later == {} && s.pending == multiset{} && s.working == map[]
    requires Ledger.ValidEnv(env) && LedgerRuns.IsRun(env, ws, acts) && i < |ws|
        && Shows(s.secrets, ws[i].cluster, r.name)
    ensures r in s.policies
    ensures forall key :: Admits(s.policies[r], s.secrets, key)
              <==> key in Ledger.Credentials(ws[i].cluster, r.name).Values
  {
    IdleMeansUpToDate(s, r);
    hide Inv, LedgerRuns.IsRun, Ledger.ValidEnv, Shows, IsRendering;
    RoutesIsolated(env, ws, acts, i, s.secrets, r.name, s.policies[r]);
  }

  // ---------- whom an event reaches ----------

  /** Both controllers have an event to handle, and after both have listed their models every model
      is due for another pass. */
  ghost predicate ReachesAll(s: State, pending: multiset<Kind>) {
    && Enabled(s, Deliver(LLM, true))
    && var s2 := Next(s, Deliver(LLM, true));
    && Enabled(s2, Deliver(Passthrough, true))
    && var s3 := Next(s2, Deliver(Passthrough, true));
    && s3.pending == pending && s3.models == s.models && s3.queue == s.queue + s.models
  }

  lemma DeliverNext(s: State, kind: Kind)
    requires kind in s.pending
    ensures Enabled(s, Deliver(kind, true))
    ensures Next(s, Deliver(kind, true))
         == s.(pending := s.pending - multiset{kind}, queue := s.queue + OfKind(s.models, kind))
  {}

  lemma BothDeliver(s: State, pending: multiset<Kind>)
    requires s.pending == pending + multiset{LLM, Passthrough}
    ensures ReachesAll(s, pending)
  {
    DeliverNext(s, LLM);
    DeliverNext(s.(pending := s.pending - multiset{LLM}, queue := s.queue + OfKind(s.models, LLM)), Passthrough);
    hide Next, Enabled;
    assert s.pending - multiset{LLM} - multiset{Passthrough} == pending;
    assert s.models == OfKind(s.models, LLM) + OfKind(s.models, Passthrough);
  }

  /** A change of a Secret named "...-api-keys" that carries the label (or, if it is deleted, that
      carried it) is heard by both controllers and reaches every model; any other change is heard by
      neither. */
  lemma EventReachesAll(s: State, name: string, now: Option<KeySecret>)
    ensures var heard := (exists stem: string :: name == stem + "-api-keys")
                         && (if now.Some? then now.value.managed else name in s.secrets && s.secrets[name].managed);
      var after := Next(s, ChangeSecret(name, now));
      && after.secrets == (if now.Some? then s.secrets[name := now.value] else s.secrets - {name})
      && after.models == s.models && after.queue == s.queue
      && (if heard then ReachesAll(after, s.pending) else after.pending == s.pending)
  {
    SuffixExactly(name, "-api-keys");
    hide ReachesAll;
    if HasSuffix(name, SECRET_SUFFIX) && Visible(s, name, now) {
      BothDeliver(Next(s, ChangeSecret(name, now)), s.pending);
    }
  }

  /** Creating or editing a model queues it and decides, for it alone, whether a policy is wanted;
      removing it queues it too, and none is wanted any more. */
  lemma ModelChanges(s: State, r: Request, wanted: bool)
    ensures var after := Next(s, EditModel(r, wanted));
      && after.models == s.models + {r} && after.queue == s.queue + {r} && after.secrets == s.secrets
      && (forall q :: Wanted(after, q) <==> if q == r then wanted else Wanted(s, q))
    ensures r in s.models ==>
      var after := Next(s, RemoveModel(r));
      && after.models == s.models - {r} && after.queue == s.queue + {r} && after.secrets == s.secrets
      && (forall q :: Wanted(after, q) <==> q != r && Wanted(s, q))
  {}

  // ---------- the three conditions are needed ----------

  ghost predicate Settled(s: State, r: Request) {
    Wanted(s, r) && r !in s.queue && r !in s.later && r.kind !in s.pending && r !in s.working
  }

  /** A change of a Secret goes unnoticed exactly when it raises no event and alters what the model's
      policy is rendered from: the policy is then stale and nothing is going to notice. */
  lemma ChangeNoticedExactly(s: State, r: Request, name: string, now: Option<KeySecret>)
    requires Settled(s, r) && UpToDate(s, r)
    ensures Fresh(Next(s, ChangeSecret(name, now)), r)
       <==> Noticed(s, name, now) || SameInputs(s.secrets, Changed(s.secrets, name, now), r.name)
  {
    var after := Changed(s.secrets, name, now);
    var p := s.policies[r];
    if IsRendering(p, s.secrets, r.name) && IsRendering(p, after, r.name) {
      assert SameInputs(s.secrets, after, r.name);
    }
    assert r.kind == LLM || r.kind == Passthrough;
  }

  /** The case that bites: a key minted into, or revoked from, a model's own Secret after its
      managed-by label is gone. */
  lemma UnlabelledChangeGoesUnnoticed(s: State, r: Request, keys: map<string, Ledger.ApiKey>, a: Action)
    requires Settled(s, r) && UpToDate(s, r)
    requires a == ChangeSecret(APIKeySecretName(r.name), Some(KeySecret(keys, false)))
    requires keys.Keys != OwnIds(s.secrets, r.name)
    ensures !Fresh(Next(s, a), r)
  {
    ChangeNoticedExactly(s, r, APIKeySecretName(r.name), Some(KeySecret(keys, false)));
    assert OwnIds(Next(s, a).secrets, r.name) == keys.Keys;
  }

  /** A List error in the watch handler loses the event: the model stays fresh exactly if it needed
      no refresh, or something else is still going to refresh it. */
  lemma FailedListLosesEvent(s: State, r: Request)
    requires Wanted(s, r) && Enabled(s, Deliver(r.kind, false))
    ensures Fresh(Next(s, Deliver(r.kind, false)), r)
       <==> || UpToDate(s, r) || r in s.queue || r in s.later || s.pending[r.kind] > 1
            || (r in s.working && CurrentPass(s, r, s.working[r]))
  {}

  /** A failed policy write is retried for a PassthroughModel; for an LLMModel it is logged, the
      pass counts as done, and the old policy stays unless it was right or another pass is due. */
  lemma FailedWriteRetriedByPassthroughOnly(s: State, r: Request)
    requires Wanted(s, r) && Enabled(s, WriteFails(r))
    ensures Fresh(Next(s, WriteFails(r)), r) <==> r.kind.Passthrough? || UpToDate(s, r) || WillRun(s, r)
  {}

  // ---------- runs in which each of them happens ----------

  lemma Extend(ss: seq<State>, acts: seq<Action>, a: Action) returns (ss': seq<State>, acts': seq<Action>)
    requires IsRun(ss, acts) && Enabled(ss[|acts|], a)
    ensures IsRun(ss', acts') && ss'[|acts'|] == Next(ss[|acts|], a)
  {
    hide Next, Enabled;
    ss', acts' := ss + [Next(ss[|acts|], a)], acts + [a];
    forall j | 0 <= j < |acts'| ensures Enabled(ss'[j], acts'[j]) && ss'[j + 1] == Next(ss'[j], acts'[j]) {
      if j < |acts| { assert ss'[j] == ss[j] && ss'[j + 1] == ss[j + 1]; }
    }
  }

  /** A model is created and its first pass has read everything; there are no Secrets yet. */
  ghost predicate AboutToWrite(s: State, r: Request) {
    && Wanted(s, r) && s.secrets == map[] && s.policies == map[] && r !in s.queue && s.later == {}
         && s.pending == multiset{}
    && s.working == map[r := Pass(true, HasBoth({}, {APIKeySecretName(r.name)}))]
  }

  lemma FirstPassReads(r: Request) returns (ss: seq<State>, acts: seq<Action>)
    ensures IsRun(ss, acts) && AboutToWrite(ss[|acts|], r)
  {
    ss, acts := [State(map[], {}, {}, map[], multiset{}, {}, {}, map[])], [];
    ss, acts := Extend(ss, acts, EditModel(r, true));
    ss, acts := Extend(ss, acts, Take(r));
    ss, acts := Extend(ss, acts, ReadIds(r));
    assert OwnIds(ss[|acts|].secrets, r.name) == {};
    ss, acts := Extend(ss, acts, ReadNames(r));
    assert PooledNames(map[], r.name) == {APIKeySecretName(r.name)};
  }

  /** The policy of a model without keys is in force, and nothing is pending. */
  ghost predicate AtRest(s: State, r: Request) {
    Settled(s, r) && UpToDate(s, r) && s.secrets == map[] && s.pending == multiset{}
  }

  lemma FirstPassWrites(r: Request) returns (ss: seq<State>, acts: seq<Action>)
    ensures IsRun(ss, acts) && AtRest(ss[|acts|], r)
  {
    ss, acts := FirstPassReads(r);
    var own := APIKeySecretName(r.name);
    var p := Policy([own], DenyAll);
    assert Elements(p.credentialRefs) == {own} by { assert own in p.credentialRefs; }
    assert PooledNames(map[], r.name) == {own};
    ss, acts := Extend(ss, acts, Write(r, p));
  }

  /** From the empty cluster: an LLMModel whose first policy write fails is left without a policy. */
  lemma FailedWriteHappens(r: Request) returns (ss: seq<State>, acts: seq<Action>)
    requires r.kind.LLM?
    ensures IsRun(ss, acts) && !Fresh(ss[|acts|], r)
  {
    ss, acts := FirstPassReads(r);
    ss, acts := Extend(ss, acts, WriteFails(r));
  }

  /** From the empty cluster: a key is minted, the one List of the watch handler fails, and the
      model's policy never admits it. */
  lemma FailedListHappens(r: Request, id: string, key: Ledger.ApiKey) returns (ss: seq<State>, acts: seq<Action>)
    ensures IsRun(ss, acts) && !Fresh(ss[|acts|], r)
  {
    ss, acts := FirstPassWrites(r);
    var own := APIKeySecretName(r.name);
    ss, acts := Extend(ss, acts, ChangeSecret(own, Some(KeySecret(map[id := key], true))));
    assert id in OwnIds(ss[|acts|].secrets, r.name);
    assert OwnIds(map[], r.name) == {};
    assert HasSuffix(own, SECRET_SUFFIX) && (r.kind == LLM || r.kind == Passthrough);
    assert ss[|acts|].pending == multiset{LLM, Passthrough};
    ss, acts := Extend(ss, acts, Deliver(r.kind, false));
  }

  /** From the empty cluster: a key is minted into a Secret without the managed-by label, and the
      model's policy never admits it. */
  lemma UnlabelledChangeHappens(r: Request, id: string, key: Ledger.ApiKey) returns (ss: seq<State>, acts: seq<Action>)
    ensures IsRun(ss, acts) && !Fresh(ss[|acts|], r)
  {
    ss, acts := FirstPassWrites(r);
    var a := ChangeSecret(APIKeySecretName(r.name), Some(KeySecret(map[id := key], false)));
    assert id in map[id := key].Keys && OwnIds(map[], r.name) == {};
    UnlabelledChangeGoesUnnoticed(ss[|acts|], r, map[id := key], a);
    ss, acts := Extend(ss, acts, a);
  }
}
