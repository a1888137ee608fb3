/** The periodic audit that revokes the keys of users who lost access
    (key-manager/internal/audit/auditor.go), with nobody else writing meanwhile. */
module Audit {
  import opened Wrappers
  import opened Access
  import Ledger

  type Keys = map<string, Ledger.ApiKey>

  type Entries = map<string, Ledger.KeyInfo>

  /** A model's Secret and metadata ConfigMap, where they exist. */
  datatype Store = Store(secret: Option<Keys>, metadata: Option<Entries>)

  type Stores = map<string, Store>

  /** Which API call of a revocation fails, if any. */
  datatype Fault = NoFault | BeforeSecretWrite | AtConfigMapWrite

  datatype Faults = Faults(list: string -> bool, revoke: (string, string) -> Fault)

  /** The user's groups, or None if the lookup fails. */
  type Lookup = string -> Option<seq<string>>

  datatype AuditError = ListFailed(model: string) | RevokeFailed(model: string, id: string)

  function StoreOf(stores: Stores, model: string): Store {
    if model in stores then stores[model] else Store(None, None)
  }

  /** Every entry's ClientID is its data key, as the ledger invariant has it. */
  predicate Coherent(s: Store) {
    s.metadata.Some? ==> forall id | id in s.metadata.value :: s.metadata.value[id].clientId == id
  }

  // ---------- what a pass should do ----------

  predicate ListFails(s: Store, faults: Faults, model: string) {
    s.metadata.None? || faults.list(model)
  }

  predicate RevokeFails(s: Store, faults: Faults, model: string, id: string) {
    s.secret.None? || s.metadata.None? || id !in s.secret.value || faults.revoke(model, id) != NoFault
  }

  predicate Denied(m: ModelInfo, lookup: Lookup, creator: string) {
    lookup(creator).Some? && !Accessible(m, lookup(creator).value)
  }

  /** The keys of a private model that are listed and whose creators are known to have lost it. */
  function Doomed(m: ModelInfo, s: Store, faults: Faults, lookup: Lookup): set<string> {
    if m.public || ListFails(s, faults, m.name) then {}
    else set id | id in s.metadata.value && Denied(m, lookup, s.metadata.value[id].creator)
  }

  /** Revoking each of `ids`: those whose revocation stops half-way leave the Secret only. */
  function AfterRevoking(s: Store, faults: Faults, model: string, ids: set<string>): Store {
    if s.secret.None? || s.metadata.None? then s
    else
      var gone := set id | id in ids && id in s.secret.value && !faults.revoke(model, id).BeforeSecretWrite?;
      var forgotten := set id | id in ids && !RevokeFails(s, faults, model, id);
      Store(Some(s.secret.value - gone), Some(s.metadata.value - forgotten))
  }

  function Audited(m: ModelInfo, s: Store, faults: Faults, lookup: Lookup): Store {
    AfterRevoking(s, faults, m.name, Doomed(m, s, faults, lookup))
  }

  predicate Reported(m: ModelInfo, s: Store, faults: Faults, lookup: Lookup, e: AuditError) {
    match e
    case ListFailed(model) => model == m.name && !m.public && ListFails(s, faults, m.name)
    case RevokeFailed(model, id) =>
      model == m.name && id in Doomed(m, s, faults, lookup) && RevokeFails(s, faults, m.name, id)
  }

  /** One revocation, on the store as it stands. */
  function Revoked(s: Store, fault: Fault, id: string): Store {
    if fault.BeforeSecretWrite? || s.secret.None? || s.metadata.None? || id !in s.secret.value then s
    else if fault.AtConfigMapWrite? then s.(secret := Some(s.secret.value - {id}))
    else Store(Some(s.secret.value - {id}), Some(s.metadata.value - {id}))
  }

  lemma RevokeOneMore(s: Store, faults: Faults, model: string, ids: set<string>, id: string)
    requires id !in ids
    ensures var current := AfterRevoking(s, faults, model, ids);
      && Revoked(current, faults.revoke(model, id), id) == AfterRevoking(s, faults, model, ids + {id})
      && (RevokeFails(current, faults, model, id) <==> RevokeFails(s, faults, model, id))
  {
    if s.secret.Some? && s.metadata.Some? {
      var current := AfterRevoking(s, faults, model, ids);
      assert id in current.secret.value <==> id in s.secret.value;
      var after, expected := Revoked(current, faults.revoke(model, id), id),
          AfterRevoking(s, faults, model, ids + {id});
      assert after.secret.value == expected.secret.value;
      assert after.metadata.value == expected.metadata.value;
    }
  }

  // ---------- the code ----------

  method HasOverlap(userGroups: seq<string>, modelGroups: set<string>) returns (overlap: bool)
    ensures overlap <==> exists g :: g in userGroups && g in modelGroups
  {
    for i := 0 to |userGroups|
      invariant forall j :: 0 <= j < i ==> userGroups[j] !in modelGroups
    {
      if userGroups[i] in modelGroups { return true; }
    }
    return false;
  }

  /** The entries of a ConfigMap, each once. */
  ghost predicate IsListing(keys: seq<Ledger.KeyInfo>, entries: Entries) {
    && (forall i | 0 <= i < |keys| :: keys[i].clientId in entries && entries[keys[i].clientId] == keys[i])
    && (forall i, j | 0 <= i < j < |keys| :: keys[i].clientId != keys[j].clientId)
    && forall id | id in entries :: exists i :: 0 <= i < |keys| && keys[i].clientId == id
  }

  class Auditor {
    const faults: Faults
    const lookup: Lookup
    const watcher: Watcher
    var stores: Stores

    constructor (faults: Faults, lookup: Lookup, watcher: Watcher, stores: Stores)
      ensures this.faults == faults && this.lookup == lookup && this.watcher == watcher && this.stores == stores
    {
      this.faults, this.lookup, this.watcher, this.stores := faults, lookup, watcher, stores;
    }

    method ListKeys(model: string) returns (keys: Option<seq<Ledger.KeyInfo>>)
      requires Coherent(StoreOf(stores, model))
      ensures keys.None? <==> ListFails(StoreOf(stores, model), faults, model)
      ensures keys.Some? ==> IsListing(keys.value, StoreOf(stores, model).metadata.value)
    {
      if faults.list(model) || model !in stores || stores[model].metadata.None? { return None; }
      var entries := stores[model].metadata.value;
      var result: seq<Ledger.KeyInfo> := [];
      var rest := entries.Keys;
      while rest != {}
        invariant rest <= entries.Keys
        invariant IsListing(result, entries - rest)
        decreases |rest|
      {
        var id :| id in rest;
        ExtendListing(result, entries, rest, id);
        rest := rest - {id};
        result := result + [entries[id]];
      }
      assert entries - {} == entries;
      return Some(result);
    }

    method RevokeKey(model: string, id: string) returns (failed: bool)
      modifies this
      ensures failed <==> RevokeFails(StoreOf(old(stores), model), faults, model, id)
      ensures StoreOf(stores, model) == Revoked(StoreOf(old(stores), model), faults.revoke(model, id), id)
      ensures forall m :: m != model ==> StoreOf(stores, m) == StoreOf(old(stores), m)
    {
      if faults.revoke(model, id).BeforeSecretWrite? || model !in stores { return true; }
      var s := stores[model];
      if s.secret.None? || s.metadata.None? || id !in s.secret.value { return true; }
      stores := stores[model := s.(secret := Some(s.secret.value - {id}))];
      if faults.revoke(model, id).AtConfigMapWrite? { return true; }
      stores := stores[model := stores[model].(metadata := Some(s.metadata.value - {id}))];
      return false;
    }

    /** The body of the loop over a model's keys. */
    method AuditKey(m: ModelInfo, modelGroups: set<string>, key: Ledger.KeyInfo) returns (err: Option<AuditError>)
      requires !m.public && modelGroups == set g | g in m.groups
      modifies this
      ensures forall other :: other != m.name ==> StoreOf(stores, other) == StoreOf(old(stores), other)
      ensures var s := StoreOf(old(stores), m.name); var id := key.clientId;
        if Denied(m, lookup, key.creator) then
          && StoreOf(stores, m.name) == Revoked(s, faults.revoke(m.name, id), id)
          && err == if RevokeFails(s, faults, m.name, id) then Some(RevokeFailed(m.name, id)) else None
        else stores == old(stores) && err.None?
    {
      var userGroups := lookup(key.creator);
      if userGroups.None? { return None; }
      var overlap := HasOverlap(userGroups.value, modelGroups);
      OverlapIsAccess(m, lookup, key.creator, modelGroups, overlap);
      if overlap { return None; }
      var failed := RevokeKey(m.name, key.clientId);
      return if failed then Some(RevokeFailed(m.name, key.clientId)) else None;
    }

    /** The body of the loop over the models. */
    method AuditModel(m: ModelInfo) returns (errs: seq<AuditError>)
      requires Coherent(StoreOf(stores, m.name))
      modifies this
      ensures StoreOf(stores, m.name) == Audited(m, StoreOf(old(stores), m.name), faults, lookup)
      ensures forall other :: other != m.name ==> StoreOf(stores, other) == StoreOf(old(stores), other)
      ensures forall e :: e in errs <==> Reported(m, StoreOf(old(stores), m.name), faults, lookup, e)
    {
      hide AfterRevoking, RevokeFails, Revoked;
      ghost var s := StoreOf(stores, m.name);
      errs := [];
      NothingRevoked(s, faults, m.name);
      if m.public { return; }
      var keys := ListKeys(m.name);
      if keys.None? { return [ListFailed(m.name)]; }
      var modelGroups := set g | g in m.groups;
      hide StoreOf, Accessible, ListFails, Coherent;
      ghost var done: set<string> := {};
      for i := 0 to |keys.value|
        invariant done <= Doomed(m, s, faults, lookup)
        invariant forall j :: 0 <= j < i && keys.value[j].clientId in Doomed(m, s, faults, lookup) ==>
                    keys.value[j].clientId in done
        invariant forall j :: i <= j < |keys.value| ==> keys.value[j].clientId !in done
        invariant StoreOf(stores, m.name) == AfterRevoking(s, faults, m.name, done)
        invariant forall other :: other != m.name ==> StoreOf(stores, other) == StoreOf(old(stores), other)
        invariant forall e :: e in errs <==>
          e.RevokeFailed? && e.model == m.name && e.id in done && RevokeFails(s, faults, m.name, e.id)
      {
        var key := keys.value[i];
        RevokeOneMore(s, faults, m.name, done, key.clientId);
        var err := AuditKey(m, modelGroups, key);
        if Denied(m, lookup, key.creator) { done := done + {key.clientId}; }
        if err.Some? { errs := errs + [err.value]; }
      }
      assert done == Doomed(m, s, faults, lookup);
    }

    /** The loop over the listed models. */
    method AuditAll(models: seq<ModelInfo>) returns (errs: seq<AuditError>)
      requires forall name :: Coherent(StoreOf(stores, name))
      modifies this
      ensures PassOver(models, old(stores), stores, errs, faults, lookup)
    {
      hide StoreOf, Audited, Reported, Coherent;
      errs := [];
      for i := 0 to |models|
        invariant forall name :: Coherent(StoreOf(stores, name))
        invariant forall name :: StoreOf(stores, name)
                    == Through(models[..i], name, StoreOf(old(stores), name), faults, lookup)
        invariant forall e :: e in errs <==> exists j :: 0 <= j < i
                                               && ReportedAt(models, j, old(stores), faults, lookup, e)
      {
        ghost var before := stores;
        var more := AuditModel(models[i]);
        assert StoreOf(before, models[i].name)
            == Through(models[..i], models[i].name, StoreOf(old(stores), models[i].name), faults, lookup);
        assert forall e :: e in more <==> ReportedAt(models, i, old(stores), faults, lookup, e);
        ghost var earlier := errs;
        errs := errs + more;
        assert forall e :: e in errs <==> e in earlier || e in more;
        assert models[..i + 1][..i] == models[..i];
        AuditedCoherent(models[i], StoreOf(before, models[i].name), faults, lookup);
      }
      assert models[..|models|] == models;
    }

    /** One pass over the watcher's models; the result is nil when no error was collected.  With
        unique model names, every private model's keys are audited once and nothing else changes; and
        after a nil result a listed key is gone exactly if its creator's lookup succeeded and the mint
        gate would deny that creator the model. */
    method RunOnce() returns (errs: seq<AuditError>)
      requires forall name :: Coherent(StoreOf(stores, name))
      modifies this
      ensures exists listing ::
        ShowsAll(watcher.models, listing) && PassOver(listing, old(stores), stores, errs, faults, lookup)
      ensures NamesUnique(watcher.models) ==> AuditsEach(watcher.models, old(stores), stores, errs, faults, lookup)
      ensures NamesUnique(watcher.models) && errs == [] ==>
          AgreesThroughout(watcher.models, old(stores), stores, lookup)
    {
      var models := watcher.ListModels();
      ghost var before := stores;
      errs := AuditAll(models);
      hide ShowsAll, NamesUnique, PassOver, AuditsEach, AgreesThroughout;
      if NamesUnique(watcher.models) {
        UniqueNamesPass(watcher.models, models, before, stores, errs, faults, lookup);
        if errs == [] { NilPassAgrees(watcher.models, before, stores, faults, lookup); }
      }
    }
  }

  /** What the models of the given name, audited in order, leave of its store. */
  function Through(models: seq<ModelInfo>, name: string, s: Store, faults: Faults, lookup: Lookup): Store {
    if models == [] then s
    else
      var last := models[|models| - 1];
      var t := Through(models[..|models| - 1], name, s, faults, lookup);
      if last.name == name then Audited(last, t, faults, lookup) else t
  }

  predicate ReportedAt(models: seq<ModelInfo>, i: nat, stores: Stores, faults: Faults, lookup: Lookup, e: AuditError)
    requires i < |models|
  {
    var s := Through(models[..i], models[i].name, StoreOf(stores, models[i].name), faults, lookup);
    Reported(models[i], s, faults, lookup, e)
  }

  /** The outcome of auditing a listing in order: every store, and exactly the errors due. */
  ghost predicate PassOver(listing: seq<ModelInfo>, before: Stores, after: Stores, errs: seq<AuditError>,
                           faults: Faults, lookup: Lookup) {
    && (forall name :: StoreOf(after, name) == Through(listing, name, StoreOf(before, name), faults, lookup))
    && forall e :: e in errs <==> exists i :: 0 <= i < |listing| && ReportedAt(listing, i, before, faults, lookup, e)
  }

  /** Every model's store is audited once, other stores are untouched, and the errors are exactly the
      failed lists and failed revocations. */
  ghost predicate AuditsEach(models: map<string, ModelInfo>, before: Stores, after: Stores, errs: seq<AuditError>,
                             faults: Faults, lookup: Lookup) {
    && (forall k | k in models ::
          StoreOf(after, models[k].name) == Audited(models[k], StoreOf(before, models[k].name), faults, lookup))
    && (forall name | forall k | k in models :: models[k].name != name :: StoreOf(after, name) == StoreOf(before, name))
    && forall e :: e in errs <==> ReportedForSome(models, before, faults, lookup, e)
  }

  ghost predicate ReportedForSome(models: map<string, ModelInfo>, before: Stores, faults: Faults, lookup: Lookup,
                                  e: AuditError) {
    exists k :: k in models && Reported(models[k], StoreOf(before, models[k].name), faults, lookup, e)
  }

  ghost predicate AgreesThroughout(models: map<string, ModelInfo>, before: Stores, after: Stores, lookup: Lookup) {
    forall k, id | k in models && !models[k].public ::
      AgreesWithMinting(models, k, StoreOf(before, models[k].name), StoreOf(after, models[k].name), lookup, id)
  }

  /** With one model for each name, a model's store sees its own audit and nothing else. */
  lemma {:induction false} UniqueNamesAuditOnce(models: seq<ModelInfo>, name: string, s: Store, faults: Faults,
                                                lookup: Lookup)
    requires forall i, j :: 0 <= i < j < |models| ==> models[i].name != models[j].name
    ensures (forall m :: m in models ==> m.name != name) ==> Through(models, name, s, faults, lookup) == s
    ensures forall m :: m in models && m.name == name ==>
              Through(models, name, s, faults, lookup) == Audited(m, s, faults, lookup)
  {
    hide Audited;
    if models != [] {
      UniqueNamesAuditOnce(models[..|models| - 1], name, s, faults, lookup);
      assert models == models[..|models| - 1] + [models[|models| - 1]];
    }
  }

  lemma AuditedCoherent(m: ModelInfo, s: Store, faults: Faults, lookup: Lookup)
    requires Coherent(s)
    ensures Coherent(Audited(m, s, faults, lookup))
  {}

  lemma OverlapIsAccess(m: ModelInfo, lookup: Lookup, creator: string, modelGroups: set<string>, overlap: bool)
    requires !m.public && lookup(creator).Some? && modelGroups == set g | g in m.groups
    requires overlap <==> exists g :: g in lookup(creator).value && g in modelGroups
    ensures Denied(m, lookup, creator) <==> !overlap
  {}

  lemma NothingRevoked(s: Store, faults: Faults, model: string)
    ensures AfterRevoking(s, faults, model, {}) == s
  {
    if s.secret.Some? && s.metadata.Some? {
      assert AfterRevoking(s, faults, model, {}).secret.value == s.secret.value;
      assert AfterRevoking(s, faults, model, {}).metadata.value == s.metadata.value;
    }
  }

  lemma ExtendListing(keys: seq<Ledger.KeyInfo>, entries: Entries, rest: set<string>, id: string)
    requires IsListing(keys, entries - rest) && id in rest && rest <= entries.Keys && entries[id].clientId == id
    ensures IsListing(keys + [entries[id]], entries - (rest - {id}))
  {
    var keys' := keys + [entries[id]];
    forall other | other in entries - (rest - {id}) ensures exists i :: 0 <= i < |keys'| && keys'[i].clientId == other {
      if other == id {
        assert keys'[|keys|].clientId == id;
      } else {
        assert other in entries - rest;
        var i :| 0 <= i < |keys| && keys[i].clientId == other;
        assert keys'[i] == keys[i];
      }
    }
  }

  // ---------- agreement with minting ----------

  /** Listed key `id` of model `k` is gone from both objects exactly if its creator's lookup
      succeeded and the mint gate would now deny that creator the model. */
  ghost predicate AgreesWithMinting(models: map<string, ModelInfo>, k: string, s: Store, s': Store, lookup: Lookup,
                                    id: string)
    requires k in models
  {
    s.metadata.Some? && id in s.metadata.value ==>
      var groups := lookup(s.metadata.value[id].creator);
      var revoked := groups.Some? && !MayMint(models, groups.value, models[k].name);
      && s'.metadata.Some? && (s'.secret.Some? <==> s.secret.Some?)
      && (id !in s'.metadata.value <==> revoked)
      && (s.secret.Some? && id in s.secret.value ==> (id !in s'.secret.value <==> revoked))
  }

  lemma AuditAgreesWithMinting(models: map<string, ModelInfo>, k: string, s: Store, faults: Faults, lookup: Lookup,
                               id: string)
    requires k in models && NamesUnique(models) && !models[k].public
    requires forall e :: !Reported(models[k], s, faults, lookup, e)
    ensures AgreesWithMinting(models, k, s, Audited(models[k], s, faults, lookup), lookup, id)
  {
    if s.metadata.Some? && id in s.metadata.value {
      var m, groups := models[k], lookup(s.metadata.value[id].creator);
      if groups.Some? { GateForUniqueName(models, k, groups.value); }
      hide MayMint, NamesUnique, Accessible;
      assert !Reported(m, s, faults, lookup, ListFailed(m.name));
      assert !Reported(m, s, faults, lookup, RevokeFailed(m.name, id));
    }
  }

  lemma ListingHasUniqueNames(models: map<string, ModelInfo>, listing: seq<ModelInfo>)
    requires NamesUnique(models) && ShowsAll(models, listing)
    ensures forall i, j :: 0 <= i < j < |listing| ==> listing[i].name != listing[j].name
    ensures forall m :: m in listing <==> exists k :: k in models && models[k] == m
  {
    var keys :| Listed(models, keys, listing) && forall k :: k in keys <==> k in models;
    forall m | exists k :: k in models && models[k] == m ensures m in listing {
      var k :| k in models && models[k] == m;
      var i :| 0 <= i < |keys| && keys[i] == k;
      assert listing[i] == m;
    }
  }

  /** What a pass over a listing of uniquely named models does, in terms of the models themselves. */
  lemma UniqueNamesPass(models: map<string, ModelInfo>, listing: seq<ModelInfo>, before: Stores, after: Stores,
                        errs: seq<AuditError>, faults: Faults, lookup: Lookup)
    requires NamesUnique(models) && ShowsAll(models, listing)
    requires PassOver(listing, before, after, errs, faults, lookup)
    ensures AuditsEach(models, before, after, errs, faults, lookup)
  {
    ListingHasUniqueNames(models, listing);
    hide NamesUnique, ShowsAll, Audited, Reported, StoreOf;
    forall name { UniqueNamesAuditOnce(listing, name, StoreOf(before, name), faults, lookup); }
    hide Through, ReportedAt, ReportedForSome;
    forall e ensures e in errs <==> ReportedForSome(models, before, faults, lookup, e) {
      ErrorsOfUniqueNames(models, listing, before, faults, lookup, e);
    }
  }

  lemma ErrorsOfUniqueNames(models: map<string, ModelInfo>, listing: seq<ModelInfo>, before: Stores,
                            faults: Faults, lookup: Lookup, e: AuditError)
    requires forall i, j :: 0 <= i < j < |listing| ==> listing[i].name != listing[j].name
    requires forall m :: m in listing <==> exists k :: k in models && models[k] == m
    ensures (exists i :: 0 <= i < |listing| && ReportedAt(listing, i, before, faults, lookup, e))
       <==> ReportedForSome(models, before, faults, lookup, e)
  {
    hide Audited, Reported, StoreOf;
    forall i: nat | i < |listing|
      ensures ReportedAt(listing, i, before, faults, lookup, e)
         <==> Reported(listing[i], StoreOf(before, listing[i].name), faults, lookup, e) {
      UniqueNamesAuditOnce(listing[..i], listing[i].name, StoreOf(before, listing[i].name), faults, lookup);
    }
    hide Through, ReportedAt;
    if i: nat :| i < |listing| && ReportedAt(listing, i, before, faults, lookup, e) {
      assert listing[i] in listing;
    }
    if k :| k in models && Reported(models[k], StoreOf(before, models[k].name), faults, lookup, e) {
      assert models[k] in listing;
      var i: nat :| i < |listing| && listing[i] == models[k];
      assert ReportedAt(listing, i, before, faults, lookup, e);
    }
  }

  lemma NilPassAgrees(models: map<string, ModelInfo>, before: Stores, after: Stores, faults: Faults, lookup: Lookup)
    requires NamesUnique(models) && AuditsEach(models, before, after, [], faults, lookup)
    ensures AgreesThroughout(models, before, after, lookup)
  {
    hide NamesUnique, Audited, Reported, AgreesWithMinting;
    forall k, id | k in models && !models[k].public
      ensures AgreesWithMinting(models, k, StoreOf(before, models[k].name), StoreOf(after, models[k].name), lookup, id)
    {
      forall e ensures !Reported(models[k], StoreOf(before, models[k].name), faults, lookup, e) {
        assert !ReportedForSome(models, before, faults, lookup, e) by { assert e !in []; }
      }
      AuditAgreesWithMinting(models, k, StoreOf(before, models[k].name), faults, lookup, id);
    }
  }

  /** The two listings show models that the webhooks, which know the operator's namespace, have
      admitted in some history of requests. */
  ghost predicate ListsAdmitted(operatorNamespace: string, changes: seq<Change>, listed: seq<Model>) {
    && operatorNamespace != "" && WellNamed(listed)
    && forall m | m in listed :: (m.namespace, m.name) in OfKind(After(operatorNamespace, changes), m.kind)
  }

  lemma AdmittedNamesUnique(operatorNamespace: string, changes: seq<Change>, listed: seq<Model>)
    requires ListsAdmitted(operatorNamespace, changes, listed)
    ensures NamesUnique(CacheOf(listed))
  {
    hide CacheOf, NamesUnique, WellNamed, After;
    NamesUniqueExactly(operatorNamespace);
    assert OneModelPerName(After(operatorNamespace, changes));
    RegistryGivesUniqueNames(After(operatorNamespace, changes), listed);
  }

  /** Key `id` of the object's store is gone exactly if its creator's lookup succeeded and the object
      is not open to that creator's groups. */
  ghost predicate RevokedExactly(m: Model, s: Store, s': Store, lookup: Lookup, id: string) {
    s.metadata.Some? && id in s.metadata.value ==>
      var groups := lookup(s.metadata.value[id].creator);
      var revoked := groups.Some? && !OpenTo(m, groups.value);
      && s'.metadata.Some? && (s'.secret.Some? <==> s.secret.Some?)
      && (id !in s'.metadata.value <==> revoked)
      && (s.secret.Some? && id in s.secret.value ==> (id !in s'.secret.value <==> revoked))
  }

  /** What a nil audit means for the objects listed: private ones (`public` is not set to true) lose
      exactly the keys of users they are not open to, and public ones are left alone. */
  ghost predicate AuditedByModel(listed: seq<Model>, before: Stores, after: Stores, lookup: Lookup) {
    && (forall m, id | m in listed && m.public != Some(true) ::
          RevokedExactly(m, StoreOf(before, m.name), StoreOf(after, m.name), lookup, id))
    && (forall m | m in listed && m.public == Some(true) :: StoreOf(after, m.name) == StoreOf(before, m.name))
  }

  lemma OnlyItselfOpens(operatorNamespace: string, changes: seq<Change>, listed: seq<Model>, m: Model,
                        groups: seq<string>)
    requires ListsAdmitted(operatorNamespace, changes, listed) && m in listed
    ensures SomeOpen(listed, groups, m.name) <==> OpenTo(m, groups)
  {
    hide After;
    NamesUniqueExactly(operatorNamespace);
    assert OneModelPerName(After(operatorNamespace, changes));
    forall n | n in listed && n.name == m.name ensures n == m {
      SameName(After(operatorNamespace, changes), m, n);
      var i, j :| 0 <= i < |listed| && 0 <= j < |listed| && listed[i] == m && listed[j] == n;
      assert i == j;
    }
  }

  lemma AgreesByModel(operatorNamespace: string, changes: seq<Change>, listed: seq<Model>, before: Stores,
                      after: Stores, faults: Faults, lookup: Lookup)
    requires ListsAdmitted(operatorNamespace, changes, listed)
    requires AgreesThroughout(CacheOf(listed), before, after, lookup)
    requires AuditsEach(CacheOf(listed), before, after, [], faults, lookup)
    ensures AuditedByModel(listed, before, after, lookup)
  {
    var models := CacheOf(listed);
    forall m, id | m in listed && m.public != Some(true)
      ensures RevokedExactly(m, StoreOf(before, m.name), StoreOf(after, m.name), lookup, id) {
      CacheShows(listed, m);
      var s := StoreOf(before, m.name);
      if s.metadata.Some? && id in s.metadata.value && lookup(s.metadata.value[id].creator).Some? {
        var groups := lookup(s.metadata.value[id].creator).value;
        GateOnModels(listed, groups, m.name);
        OnlyItselfOpens(operatorNamespace, changes, listed, m, groups);
      }
      PrivateAgrees(listed, m, before, after, lookup, id);
    }
    forall m | m in listed && m.public == Some(true) ensures StoreOf(after, m.name) == StoreOf(before, m.name) {
      CacheShows(listed, m);
      PublicSpared(listed, m, before, after, faults, lookup);
    }
  }

  lemma PrivateAgrees(listed: seq<Model>, m: Model, before: Stores, after: Stores, lookup: Lookup, id: string)
    requires WellNamed(listed) && m in listed && m.public != Some(true)
    requires AgreesThroughout(CacheOf(listed), before, after, lookup)
    requires var s := StoreOf(before, m.name);
      s.metadata.Some? && id in s.metadata.value && lookup(s.metadata.value[id].creator).Some? ==>
        var groups := lookup(s.metadata.value[id].creator).value;
        MayMint(CacheOf(listed), groups, m.name) <==> OpenTo(m, groups)
    ensures RevokedExactly(m, StoreOf(before, m.name), StoreOf(after, m.name), lookup, id)
  {
    CacheShows(listed, m);
    hide CacheOf, MayMint, OpenTo, StoreOf, WellNamed;
    var k :| k in CacheOf(listed) && CacheOf(listed)[k].name == m.name && !CacheOf(listed)[k].public;
    assert AgreesWithMinting(CacheOf(listed), k, StoreOf(before, m.name), StoreOf(after, m.name), lookup, id);
  }

  lemma PublicSpared(listed: seq<Model>, m: Model, before: Stores, after: Stores, faults: Faults, lookup: Lookup)
    requires WellNamed(listed) && m in listed && m.public == Some(true)
    requires AuditsEach(CacheOf(listed), before, after, [], faults, lookup)
    ensures StoreOf(after, m.name) == StoreOf(before, m.name)
  {
    CacheShows(listed, m);
    hide CacheOf, WellNamed, StoreOf, AfterRevoking, Reported;
    var k :| k in CacheOf(listed) && CacheOf(listed)[k].name == m.name && CacheOf(listed)[k].public;
    NothingRevoked(StoreOf(before, m.name), faults, m.name);
  }

  /** The watcher synchronises and the auditor makes a pass, on the old cache if a listing failed.
      For models that were admitted, a nil result after a successful synchronisation means that of
      every listed private object exactly the keys of users it is not open to are gone. */
  method SyncThenAudit(auditor: Auditor, operatorNamespace: string, ghost changes: seq<Change>,
                       llms: Option<seq<Model>>, passthroughs: Option<seq<Model>>)
      returns (failed: bool, errs: seq<AuditError>)
    requires forall name :: Coherent(StoreOf(auditor.stores, name))
    requires llms.Some? && passthroughs.Some? ==>
        ListsAdmitted(operatorNamespace, changes, llms.value + passthroughs.value)
    modifies auditor, auditor.watcher
    ensures failed <==> llms.None? || passthroughs.None?
    ensures !failed && errs == [] ==>
      AuditedByModel(llms.value + passthroughs.value, old(auditor.stores), auditor.stores, auditor.lookup)
  {
    hide CacheOf, AgreesThroughout, AuditsEach, PassOver, ShowsAll, NamesUnique, Coherent, ListsAdmitted;
    hide AuditedByModel;
    failed := auditor.watcher.Sync(llms, passthroughs);
    if !failed { AdmittedNamesUnique(operatorNamespace, changes, llms.value + passthroughs.value); }
    ghost var before := auditor.stores;
    errs := auditor.RunOnce();
    if !failed && errs == [] {
      AgreesByModel(operatorNamespace, changes, llms.value + passthroughs.value, before, auditor.stores,
                    auditor.faults, auditor.lookup);
    }
  }

  /** One failure does not stop the others: whatever else fails, a doomed key whose own revocation
      does not fail is gone from both objects. */
  lemma FailuresAreIndependent(m: ModelInfo, s: Store, faults: Faults, lookup: Lookup, id: string)
    requires id in Doomed(m, s, faults, lookup) && !RevokeFails(s, faults, m.name, id)
    ensures var s' := Audited(m, s, faults, lookup);
      s'.secret.Some? && s'.metadata.Some? && id !in s'.secret.value && id !in s'.metadata.value
  {}

  /** A pass touches no other key: keys whose creators keep access or cannot be looked up, and all
      keys of public and unlistable models. */
  lemma OthersAreSpared(m: ModelInfo, s: Store, faults: Faults, lookup: Lookup, id: string)
    requires id !in Doomed(m, s, faults, lookup)
    ensures var s' := Audited(m, s, faults, lookup);
      && (s.secret.Some? && id in s.secret.value ==>
            s'.secret.Some? && id in s'.secret.value && s'.secret.value[id] == s.secret.value[id])
      && (s.metadata.Some? && id in s.metadata.value ==>
            s'.metadata.Some? && id in s'.metadata.value && s'.metadata.value[id] == s.metadata.value[id])
  {}

  /** An entry whose credential is already gone (a revocation that stopped between its two writes)
      is reported again by every later pass and never cleaned up. */
  lemma OrphanIsReportedEveryPass(m: ModelInfo, s: Store, faults: Faults, lookup: Lookup, id: string)
    requires id in Doomed(m, s, faults, lookup) && s.secret.Some? && id !in s.secret.value
    ensures Reported(m, s, faults, lookup, RevokeFailed(m.name, id))
    ensures var s' := Audited(m, s, faults, lookup);
      s'.secret.Some? && id !in s'.secret.value && id in Doomed(m, s', faults, lookup)
  {}

  /** Such an entry is made by a revocation whose ConfigMap write fails. */
  lemma ConfigMapFaultOrphans(m: ModelInfo, s: Store, faults: Faults, lookup: Lookup, id: string)
    requires id in Doomed(m, s, faults, lookup) && s.secret.Some? && id in s.secret.value
    requires faults.revoke(m.name, id).AtConfigMapWrite?
    ensures var s' := Audited(m, s, faults, lookup);
      s'.secret.Some? && id !in s'.secret.value && id in Doomed(m, s', faults, lookup)
  {}
}
