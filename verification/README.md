# Verified model of API-key serving for LLM models

A Dafny model of the parts of a Kubernetes operator and its key-manager that decide who may call
which language model, with proofs of what they promise.  `dafny verify dfyconfig.toml` checks all
of it.

| file | about |
|---|---|
| `ClientIds.dfy` | how an API key's client ID is composed, and that it is unambiguous |
| `Ledger.dfy`, `LedgerRuns.dfy` | one Secret and one ConfigMap per model, written by several parties with optimistic concurrency and no transaction; what all interleavings keep |
| `Effects.dfy` | what every write leaves in the two objects, labels included, what whole calls leave, and why calls fail |
| `Revocations.dfy` | exactly when a revocation succeeds, and runs in which calls end badly |
| `KeyManager.dfy` | the key-manager's calls as code, proved to be runs of the ledger |
| `Policies.dfy` | the pooled gateway policies rendered from the Secrets, and the isolation of the models |
| `Freshness.dfy`, `Settling.dfy` | the policies as a derived index, kept fresh by watches and two work queues, and that the queues run dry |
| `Exposure.dfy` | what a policy that has fallen behind can admit |
| `JwksKeys.dfy`, `Jwks.dfy`, `JwksSteps.dfy`, `JwksCallers.dfy`, `JwksRates.dfy` | the token validator's key cache: back-off, shared flights, what callers get, cool-down |
| `SpecTree.dfy`, `Listeners.dfy`, `SharedTls.dfy`, `TlsOutcome.dfy` | convergence of the shared TLS resources, and what they are afterwards |
| `Deployments.dfy` | when a model's Deployment is updated and when it is replaced |
| `Access.dfy`, `Audit.dfy` | one access relation behind listing, minting, auditing and the internal endpoint |
| `Slug.dfy` | name normalisation |
| `Text.dfy`, `Wrappers.dfy` | decimal numerals, byte order, sorting; optional values |

Concurrency is modelled by interleaving atomic steps: one request to the API server, one step of a
goroutine.  Code that works in place is a class whose methods are proved against functions or
state-machine steps, and the properties are proved about those.  An argument named `env`, `faults`
or `render` carries what the code cannot choose: hashes, randomness, failures, printing.

Assumptions, each stated as a `requires` where it is used: the 128-bit hash prints 32 hex digits
and does not collide on the (user, model) pairs in play; model names contain no NUL and object
names no slash; generated keys are new; the gateway takes the first Secret that has a client ID;
`strings.ToLower` leaves [a-z0-9-] alone; where a comparison by printed form is read backwards, the
wanted texts print uniquely; a server stores Gateways as they are or with fields added.

Where the code and its comments part ways, the model follows the code:

- `sanitizeUsernameForKey` alone does not give distinct names distinct results
  (`ClientIds.SanitizedAloneCollides`); client IDs are distinct because the pair is hashed too.
- `RevokeKey` retries after a conflict on its ConfigMap write, but the retry cannot succeed
  (`Revocations.RevokeSucceedsExactly`, and a run in `Revocations.ConflictHappens`); the entry it
  leaves is an error in every audit that would revoke it (`Audit.OrphanIsReportedEveryPass`).
- "At most one outbound fetch per cool-down" holds of fetches passing the gate; of the requests that
  leave it holds exactly if each leaves at the instant of its stamp
  (`JwksRates.SendsKeepBoundExactly`).
- A failed policy write is retried for a PassthroughModel and only logged for an LLMModel
  (`Freshness.FailedWriteRetriedByPassthroughOnly`).
- Fields a user adds to a shared listener are said to be overwritten at the next pass; they stay as
  long as the compared fields agree (`Listeners.MergeAgainIsNoOp`).
- `modelConfigHash` is blind to text moved across a field boundary
  (`Deployments.BoundaryShiftUnseen`).

## Model

| member | source | states |
|---|---|---|
| `Ledger.StepKeepsInv` | key-manager/internal/secrets/manager.go:206-377 | every step of every writer (create, revoke, list-then-delete, operator label updates, deletions, failed requests) keeps: copies read earlier are current if their version is; each stored key was generated for one user and model and sits under the identifier composed for them; each metadata entry's ClientID is its data key and its ID determines its Creator |
| `LedgerRuns.InvAlways` | key-manager/internal/secrets/manager.go:187-377 | all of this holds at every moment of every interleaving |
| `LedgerRuns.SecretStep` | key-manager/internal/secrets/manager.go:206-296 | a step leaves a model's credentials exactly as they are, adds one fresh credential of a create, removes exactly the revoked one, or is the finalizer's deletion of the Secret |
| `LedgerRuns.ConfigMapStep` | key-manager/internal/secrets/manager.go:268-290 | the same for the metadata ConfigMap: one entry recorded for the identifier just minted, one forgotten, or none |
| `Effects.LabelsStep` | key-manager/internal/secrets/manager.go:262-290 | in a reachable state no step of a CreateKey, a RevokeKey or a DELETE changes the labels of any object; only an operator's label update does, with the data as it was, and a new object starts without data |
| `Effects.EnsuredLeaves` | operator/internal/controller/llmmodel_controller.go:616-658 | a label update that reports success has left exactly the wanted labels, and the data as they were |
| `Effects.UndisturbedEnsure` | operator/internal/controller/llmmodel_controller.go:616-658 | with no failing request and nobody else writing a label update succeeds, and the object has exactly the wanted labels and its data as before, or none if it was not there |
| `Effects.UndisturbedCreate` | key-manager/internal/secrets/manager.go:187-296 | a CreateKey for a named user whose model has both objects, with no failing request and nobody else writing, succeeds after two reads and two writes and leaves exactly: the returned key under the next free ID, its metadata entry field by field, and all other data and all labels in both objects, and every other model's objects, as they were |
| `Effects.NeverStuck` | key-manager/internal/secrets/manager.go:187-377 | a call that has not ended can always go on without a fault, so these runs do end |
| `Effects.RevokedStep` | key-manager/internal/secrets/manager.go:371-377 | in a reachable state the step that makes a revocation succeed takes exactly its entry out of the metadata |
| `Effects.RevokedHasRemoved` | key-manager/internal/secrets/manager.go:351-377 | over any run a revocation that succeeded has behind it one accepted Secret write that removed exactly its key, which was there, and after it one accepted ConfigMap write that removed exactly its entry |
| `Effects.UndisturbedRevoke` | key-manager/internal/secrets/manager.go:336-377 | with no failing request and nobody else writing, a RevokeKey whose model has both objects removes exactly the key and the entry, all labels and other data kept, or finds no such key and changes nothing |
| `Effects.UndisturbedDelete` | key-manager/internal/api/handler.go:186-231 | a whole undisturbed DELETE: not found for another namespace or an ID without an entry, forbidden for another user's key, and for the owner the revocation, which leaves credential and entry gone |
| `Effects.ErrorsExactly` | key-manager/internal/secrets/manager.go:187-377 | every error says what was so when it arose: not found exactly if the object was missing (or the ID, for a revocation), a conflict sends the call back to its first read on the first two attempts and ends it on the third, forbidden exactly for another user's key, and no other failure unless a request fails |
| `Effects.StartExactly` | key-manager/internal/secrets/manager.go:187-204 | a create without a user name fails at once; other creates and revocations begin with their first attempt, a DELETE with its listing |
| `Effects.ConflictInEachAttempt` | key-manager/internal/secrets/manager.go:187-204 | over every run, a call in a later attempt has had a conflict in each attempt before, and one that gives up because of conflicts has had three |
| `LedgerRuns.IdentifiersGloballyUnique` | key-manager/internal/secrets/manager.go:219-232 | in every reachable state no client ID stands in two models' Secrets |
| `LedgerRuns.KeysGloballyUnique` | key-manager/internal/secrets/manager.go:257-267 | no key value stands in two places |
| `LedgerRuns.MetadataNamesTheHolder` | key-manager/internal/secrets/manager.go:271-278 | a credential and the metadata entry of the same ID belong to the same user |
| `LedgerRuns.DeleteRemovesOwnKeysOnly` | key-manager/internal/api/handler.go:197-228 | in any run a DELETE by a user only ever removes credentials generated for that user, across the gap between listing and revoking, even if the ID was revoked and minted again meanwhile |
| `LedgerRuns.CallConservation` | key-manager/internal/secrets/manager.go:187-204 | one CreateKey call adds at most three IDs to the Secret and at most one metadata entry, that of the ID it added last; a successful one added exactly one entry, that of the ID it returns; other calls add nothing |
| `LedgerRuns.EntryExactly` | key-manager/internal/secrets/manager.go:268-295 | a CreateKey call has left a metadata entry if and only if it succeeded or the reply to its accepted ConfigMap write was lost |
| `Revocations.UnheardKeyHappens` | key-manager/internal/secrets/manager.go:288-295 | a run from the empty cluster in which the call reports an error and both objects hold its key |
| `LedgerRuns.GoneForGood` | key-manager/internal/secrets/manager.go:351-377 | a generated key that is in no Secret at some moment is in none ever after |
| `LedgerRuns.CredentialSurvives` | key-manager/internal/secrets/manager.go:206-296 | a credential keeps its key through any later steps other than the accepted Secret write of a revocation of that ID or the deletion of the Secret |
| `LedgerRuns.EntrySurvives` | key-manager/internal/secrets/manager.go:268-290 | a metadata entry keeps its value through any later steps other than an accepted ConfigMap write that forgets it or the deletion of the ConfigMap |
| `LedgerRuns.ReachesIsRun` | key-manager/internal/secrets/manager.go:187-377 | whatever the key-manager's calls reach from an empty cluster is the end of a run and satisfies the invariant |
| `LedgerRuns.ReturnedKeyInPlace` | key-manager/internal/secrets/manager.go:264-295 | every call that has succeeded has its two writes behind it, and what it returned is in both objects at every later moment unless a step since those writes has taken it away |
| `Revocations.RevokeSucceedsExactly` | key-manager/internal/secrets/manager.go:336-377 | a RevokeKey whose Secret write went through, with no re-mint of the ID, ends successfully if and only if its ConfigMap write is not hit by a fault and finds the version it had read; no retry ever helps |
| `Revocations.HopelessAlways` | key-manager/internal/secrets/manager.go:362-365 | a revocation whose ID is gone from the Secret, and is not minted again, never succeeds, however often it retries |
| `Revocations.ConflictHappens` | key-manager/internal/secrets/manager.go:367-374 | for every hash and user a run from the empty cluster, with an operator label update between read and write, in which the credential is removed, the call fails as not found, and the entry stays |
| `KeyManager.Manager.CreateKey` | key-manager/internal/secrets/manager.go:187-204 | the retry loop, with other writers acting between any two requests, is a run of the ledger and ends as the ledger says its call ends, so the `Effects` rows say what it leaves; it reports an unnamed error only if one of its requests or the random generator failed |
| `KeyManager.Manager.CreateKeyOnce` | key-manager/internal/secrets/manager.go:206-296 | one attempt: two reads, the probe, two writes, each a ledger step |
| `KeyManager.Manager.RevokeKey` | key-manager/internal/secrets/manager.go:336-349 | the same for RevokeKey: a run of the ledger that ends as its call ends, with an unnamed error only if one of its requests failed |
| `KeyManager.Manager.RevokeKeyOnce` | key-manager/internal/secrets/manager.go:351-377 | the same for one attempt of RevokeKey |
| `KeyManager.Manager.DeleteKey` | key-manager/internal/api/handler.go:186-231 | the DELETE handler is a run of the ledger: 404 without a match, 403 for another user's key, otherwise the revocation's outcome, and 500 for no reason of its own unless a request failed |
| `KeyManager.Manager.FindKey` | key-manager/internal/api/handler.go:208-214 | finds an entry with the ID and namespace whenever there is one |
| `KeyManager.Manager.ListKeysForUser` | key-manager/internal/secrets/manager.go:308-333 | lists each entry the user created in a labelled metadata ConfigMap, once, and nothing else; fails only if a request failed |
| `KeyManager.ShownToItsHolder` | key-manager/internal/secrets/manager.go:308-333 | a key in force is shown to a user exactly when it was generated for that user |
| `ClientIds.SanitizeUsernameForKey` | key-manager/internal/secrets/manager.go:66-90 | the byte loop computes the sanitized name |
| `ClientIds.SanitizedExactly` | key-manager/internal/secrets/manager.go:66-120 | a name of letters, digits, dash, dot and underscore stays as it is; any other is replaced byte by byte and gets a dash and its own hash |
| `ClientIds.SubstituteJoins` | key-manager/internal/secrets/manager.go:75-87 | every byte is replaced on its own, wherever it stands |
| `ClientIds.SubstitutedByte` | key-manager/internal/secrets/manager.go:79-86 | `@` becomes `-at-`, a legal byte stays, any other becomes a dash |
| `ClientIds.ClientIdExactly` | key-manager/internal/secrets/manager.go:229-246 | an ID is "user-", the sanitized user, the sanitized model, the hash of user NUL model, and the number in decimal, joined by dashes |
| `ClientIds.ClientIdIsValidDataKey` | key-manager/internal/secrets/manager.go:232-246 | every composed client ID is a legal Secret data key |
| `ClientIds.SameIdExactly` | key-manager/internal/secrets/manager.go:231-246 | without any collision assumption, two client IDs are equal exactly when readable prefix, pair hash and sequence are |
| `ClientIds.JoinedPairInjective` | key-manager/internal/secrets/manager.go:137-147 | the NUL join tells (user, model) pairs apart when model names have no NUL |
| `ClientIds.ClientIdUnambiguous` | key-manager/internal/secrets/manager.go:219-232 | equal IDs mean the same user, model and sequence number |
| `ClientIds.SanitizedUniqueExactly` | key-manager/internal/secrets/manager.go:54-62 | two sanitized names differ exactly when neither name is the other's sanitized form |
| `ClientIds.CollisionNeedsDigest` | key-manager/internal/secrets/manager.go:54-62 | distinct names with distinct hashes collide only if exactly one needs changing and the other ends in a dash and 32 hex digits |
| `ClientIds.SanitizedAloneCollides` | key-manager/internal/secrets/manager.go:54-62 | whatever the hash, some pair of distinct names sanitizes alike |
| `ClientIds.ProbeSequence` | key-manager/internal/secrets/manager.go:233-255 | terminates within as many tries as the two objects have keys, plus one, and finds the least unused number from count + 1 on |
| `ClientIds.NextSequenceExactly` | key-manager/internal/secrets/manager.go:232-255 | the number exceeds the count of the Secret's keys that start with that prefix, its ID is in neither object, and the ID of every smaller such number is in one of them |
| `Text.DecimalRoundTrip` | key-manager/internal/secrets/manager.go:246 | a number printed in decimal reads back as itself and has no leading zero |
| `ClientIds.NextSequenceUnique` | key-manager/internal/secrets/manager.go:247-255 | that number is determined by the two objects |
| `Policies.ApiKeyClientIDs` | operator/internal/controller/apikeys.go:54-64 | the sorted, duplicate-free client IDs of the model's own Secret, none if it is missing |
| `Policies.ApiKeySecretNamesWith` | operator/internal/controller/apikeys.go:71-89 | the sorted names of all managed api-keys Secrets, the own one always included |
| `Policies.RenderPolicy` | operator/internal/controller/reconcilers/auth.go:136-228 | the policy pools those Secrets and allows those IDs, with no rule instead of an empty one |
| `Policies.RenderingNames` | operator/internal/controller/apikeys.go:44-89 | a policy authenticates with the model's own "<model>-api-keys" Secret and with every Secret of that suffix that carries the managed-by label, and with no other; it allows exactly the IDs in the model's own Secret and is deny-all exactly if there are none |
| `Text.BeforeExactly` | operator/internal/controller/apikeys.go:87-88 | the order of the names is the byte order: a prefix first, otherwise the first difference decides |
| `Policies.RenderingDeterministic` | operator/internal/controller/reconcilers/auth.go:68-83 | the rendering depends on the two sets only, not on the order in which maps and lists come back |
| `Policies.PoolTakesFirst` | key-manager/internal/secrets/manager.go:129-131 | with duplicated client IDs the first Secret in the list decides the key |
| `Policies.IsolationExactly` | operator/internal/controller/reconcilers/auth.go:136-228 | for any Secrets with distinct key values, a model's route admits exactly its own keys if and only if no Secret sorting earlier repeats one of its IDs |
| `Policies.RoutesIsolated` | operator/internal/controller/reconcilers/auth.go:136-228 | in every reachable ledger state, with policies rendered from Secrets whose pooled ones are the models' own, a key is admitted on a model's external route if and only if it is in that model's own Secret; foreign unpooled Secrets may hold anything |
| `Policies.ForwardedIdIsTheMintedOne` | operator/internal/controller/reconcilers/auth.go:176-191 | the client ID forwarded to authorization and upstream is the one the key was generated under |
| `Freshness.EnqueueAllModels` | operator/internal/controller/apikeys.go:99-125 | one request for every listed model, none for other Secrets or after a failed List |
| `Freshness.EventReachesAll` | operator/internal/controller/apikeys.go:44-125 | creating, updating or deleting a Secret named "...-api-keys" that carries the label (or carried it when deleted) is heard by both controllers and, once both have listed their models, every model is due for another pass; any other change is heard by neither |
| `Freshness.ModelChanges` | operator/internal/controller/llmmodel_controller.go:127-201 | creating or editing a model queues it and decides for it alone whether a policy is wanted; removing it queues it and none is wanted any more |
| `Freshness.AlwaysFresh` | operator/internal/controller/llmmodel_controller.go:127-201 | in every run in which List and policy writes succeed and every change of a Secret raises an event or bears on no wanted policy, every model's external policy is the rendering of the current Secrets, or the model is queued, due again, about to be enqueued, or in a pass whose reads are current |
| `Freshness.ForeignSecretIsBenign` | operator/internal/controller/apikeys.go:44-48 | Secrets no policy pools and no wanted model owns may change at will |
| `Freshness.StepKeepsInv` | operator/internal/controller/passthroughmodel_controller.go:95-158 | each action of either controller keeps it |
| `Freshness.IdleMeansUpToDate` | operator/internal/controller/apikeys.go:91-98 | once both controllers are idle every policy is the rendering of the current Secrets |
| `Settling.OwnStepCounts` | operator/internal/controller/apikeys.go:91-125 | every successful step of a controller lowers an explicit bound on the steps that are left, and touches neither Secrets nor models |
| `Settling.CalmEndsCurrent` | operator/internal/controller/apikeys.go:91-98 | however the controllers go on from a state that keeps the invariant, with nothing changing outside and nothing failing, they stop within that bound, and stop only when idle, with every wanted policy the rendering of the Secrets as they are |
| `Settling.CanSettle` | operator/internal/controller/llmmodel_controller.go:127-201 | from every state they can get there |
| `Freshness.IdleGatewayIsolates` | operator/internal/controller/apikeys.go:66-98 | once both controllers are idle over a reachable ledger state, the policies actually in force admit on each external route exactly the model's own keys |
| `Freshness.ChangeNoticedExactly` | operator/internal/controller/apikeys.go:44-48 | after a change of a Secret a settled model stays fresh if and only if the change raises an event or leaves what its policy is rendered from as it was |
| `Freshness.UnlabelledChangeGoesUnnoticed` | operator/internal/controller/apikeys.go:44-48 | so a mint or revocation in a model's own Secret that lost its managed-by label leaves the policy stale with nothing pending |
| `Freshness.FailedListLosesEvent` | operator/internal/controller/apikeys.go:103-107 | after a List error in the watch handler a model stays fresh if and only if it needed no refresh or something else is still going to refresh it |
| `Freshness.FailedWriteRetriedByPassthroughOnly` | operator/internal/controller/llmmodel_controller.go:469-485 | after a failed policy write the model stays fresh if and only if it is a PassthroughModel, its policy was right already, or another pass is due anyway |
| `Freshness.UnlabelledChangeHappens` | operator/internal/controller/apikeys.go:44-48 | a run from the empty cluster that leaves a policy stale after an unlabelled change, for either kind of model |
| `Freshness.FailedListHappens` | operator/internal/controller/apikeys.go:103-107 | a run from the empty cluster that leaves a policy stale after one failed List |
| `Freshness.FailedWriteHappens` | operator/internal/controller/llmmodel_controller.go:469-485 | a run from the empty cluster that leaves an LLMModel without a policy after one failed write |
| `Exposure.StalePolicyAdmitsOwnOnly` | operator/internal/controller/reconcilers/auth.go:136-228 | a policy rendered at any earlier moment of a ledger run admits only keys that are in its model's own Secret now |
| `Exposure.AdmitsOwnOnly` | operator/internal/controller/apikeys.go:54-89 | at every step of every run of controllers and ledger together, with any failures and any delay, every policy in force admits only keys its model's own Secret holds at that moment |
| `Exposure.RevokedNeverAdmitted` | operator/internal/controller/apikeys.go:54-89 | once a key is in no Secret no policy in force ever admits it again, re-rendered or not |
| `Exposure.FreshAdmitsExactly` | operator/internal/controller/apikeys.go:54-125 | in benign runs a policy for which no refresh is due or under way admits exactly its model's own current keys |
| `JwksKeys.ParseKeysMeaning` | key-manager/internal/api/jwt_validator.go:471-483 | the parsed set holds exactly the kids of readable RSA keys, and of several keys with one kid the last |
| `JwksKeys.JWTValidator.FetchPublicKeys` | key-manager/internal/api/jwt_validator.go:438-494 | publishes the parsed set, or leaves the cache alone if the request failed or brought no RSA key |
| `JwksKeys.JWTValidator.InitialFetch` | key-manager/internal/api/jwt_validator.go:222-261 | comes online at the first answer with RSA keys, within the attempt budget or in the slow poll, with that answer's keys cached; pauses double; otherwise nothing changes |
| `JwksKeys.JWTValidator.GateUnknownKID` | key-manager/internal/api/jwt_validator.go:418-430 | clears a fetch exactly if every earlier one was cleared at least a cool-down ago, so that of the cleared fetches in any window of length T there are n with (n - 1) * cooldown <= T |
| `JwksKeys.JWTValidator.KeyFor` | key-manager/internal/api/jwt_validator.go:336-353 | a cached kid changes nothing; for another the cache changes only past the gate and only to a fetched set; the key returned is the one then cached |
| `Jwks.OneRequestAtATime` | key-manager/internal/api/jwt_validator.go:211-282 | with the sharing invariant at most one JWKS request is out |
| `Jwks.SharingKept` | key-manager/internal/api/jwt_validator.go:391-436 | every step of every goroutine keeps the sharing invariant: no flight before readiness, no direct request after it |
| `Jwks.InvAlways` | key-manager/internal/api/jwt_validator.go:211-494 | all invariants, and at most one outstanding request, in every state of every run |
| `Jwks.CacheStep` | key-manager/internal/api/jwt_validator.go:315-356 | readiness is never withdrawn, and only a fetch that brought RSA keys changes the cache, to exactly those keys |
| `Jwks.CacheIsLatestFetch` | key-manager/internal/api/jwt_validator.go:471-490 | at every moment of every run the cache is the key set of the latest answer that brought RSA keys, whoever asked for it |
| `Jwks.ReadyMeansKeys` | key-manager/internal/api/jwt_validator.go:315-320 | once ready the validator stays ready in every later state, with a non-empty cache equal to the latest successful fetch |
| `Jwks.FlightPublishesItsSet` | key-manager/internal/api/jwt_validator.go:391-401 | in every run the key set a flight is recorded to have published is the one its own request fetched |
| `Jwks.SharedFetchResolves` | key-manager/internal/api/jwt_validator.go:336-353 | over any run, a caller that joined a flight and does not give up: whenever the flight has published and no later fetch has replaced its set, the cache is what that flight fetched and the caller has its key if the set has its kid, or has failed only if it has not, or has yet to look and will find it so |
| `Jwks.WaitersAreServed` | key-manager/internal/api/jwt_validator.go:391-401 | in every run a waiting caller's flight has landed or is the one in the air |
| `JwksCallers.CachedKeyIsServed` | key-manager/internal/api/jwt_validator.go:333-338 | in any run a caller that looks when the cache holds its kid ends with exactly the key cached then, for good, and its look starts no flight and sends no request |
| `JwksCallers.RefusedOnlyIfMissingTwice` | key-manager/internal/api/jwt_validator.go:338-353 | a caller is refused for an unknown kid only if the kid was missing from the cache at its first look and again at its recheck |
| `JwksCallers.StoryAlways` | key-manager/internal/api/jwt_validator.go:315-353 | over every run, a caller has a key only if the cache held it for its kid at the step at which it looked, first or after one miss, and was told "not ready" only if the validator was not |
| `JwksSteps.WhoLaunches` | key-manager/internal/api/jwt_validator.go:269-282 | the ticker and a caller whose kid is missing join the flight in progress; otherwise the ticker launches one that is not gated and the caller one that is; nobody else launches any |
| `JwksSteps.FlightStep` | key-manager/internal/api/jwt_validator.go:418-430 | a periodic flight sends at once and leaves the gate alone; one for a kid goes on exactly if there is no stamp or the stamp is 30 s old when it reads the clock, stamps that time, and sends |
| `JwksSteps.BackgroundStep` | key-manager/internal/api/jwt_validator.go:222-282 | a failed attempt is followed by a pause and another attempt with the pause doubled until the budget is spent, then by slow polls; an answer with keys ends either and makes the validator ready; the goroutine ends exactly when it notices Stop |
| `JwksSteps.ExitedMeansStopped` | key-manager/internal/api/jwt_validator.go:207-216 | in every run the background goroutine is gone only if Stop was called |
| `JwksSteps.NothingStuck` | key-manager/internal/api/jwt_validator.go:211-436 | at every moment of every run each caller has its result, can take its next step, or waits for a flight that can move on; so does the background goroutine, which may also wait for an answer to its own request |
| `Jwks.BackoffGoodKept` | key-manager/internal/api/jwt_validator.go:222-242 | active attempts stay within the budget and pauses double from the first |
| `JwksRates.UnknownKidRate` | key-manager/internal/api/jwt_validator.go:418-436 | the unknown-kid fetches that pass the gate in any window of length T number n with (n - 1) * cooldown <= T |
| `JwksRates.UnknownKidSendRate` | key-manager/internal/api/jwt_validator.go:418-436 | for the requests that actually leave, in every run, n with (n - 2) * cooldown <= T |
| `JwksRates.PromptSendRate` | key-manager/internal/api/jwt_validator.go:418-436 | if every request left within d of its stamp, n with (n - 1) * cooldown <= T + d |
| `JwksRates.SendsKeepBoundExactly` | key-manager/internal/api/jwt_validator.go:403-406 | all runs whose requests leave within d of their stamps keep one request per cool-down if and only if d is zero |
| `JwksRates.SendsApart` | key-manager/internal/api/jwt_validator.go:418-436 | for every delay d up to the cool-down a run from the start in which two requests, each within d of its stamp, leave only a cool-down less d apart |
| `JwksRates.BackToBackSends` | key-manager/internal/api/jwt_validator.go:418-436 | a run from the start in which two such requests leave at one instant |
| `JwksRates.ReachAboutToSend` | key-manager/internal/api/jwt_validator.go:418-430 | a run from the start to a flight that is past the gate with its request still to come |
| `JwksRates.AfterIsRun` | key-manager/internal/api/jwt_validator.go:211-282 | the computed sequences of steps are runs |
| `SpecTree.ComparisonExact` | operator/internal/controller/clustertls_singleton.go:351-392 | the recursive comparison is equality of trees exactly when leaves render faithfully (no two leaves alike, no leaf like a list or map) |
| `SpecTree.NestedSpecsEqualReflexive` | operator/internal/controller/clustertls_singleton.go:351-365 | a spec compares equal to itself, whatever the rendering |
| `Listeners.Gateway.MergeHTTPSListener` | operator/internal/controller/reconcilers/clustertls.go:177-219 | the in-place merge: replaced, appended, untouched or rejected as specified, and no change without `changed` |
| `Listeners.MergeTouchesOne` | operator/internal/controller/reconcilers/clustertls.go:177-219 | at most one listener is replaced or one appended; all others keep value and place, and so does the rest of the object |
| `Listeners.MergeAgainIsNoOp` | operator/internal/controller/reconcilers/clustertls.go:221-259 | a repeat changes nothing, even after the server added fields to the listener |
| `Listeners.MergesIndependent` | operator/internal/controller/reconcilers/clustertls.go:177-219 | the merge of another listener does not disturb one that is in place |
| `Listeners.SatisfiedServes` | operator/internal/controller/reconcilers/clustertls.go:226-259 | a listener the comparison accepts terminates TLS on the wanted host over HTTPS, on a port that prints as 443, with exactly the wanted Secret of the wanted namespace, for routes of all namespaces |
| `Listeners.DecoratedStaysSatisfied` | operator/internal/controller/reconcilers/clustertls.go:221-225 | fields a server adds to a Gateway do not unsettle a listener that is in place, whoever wrote it |
| `SharedTls.Singleton.Reconcile` | operator/internal/controller/clustertls_singleton.go:99-179 | a pass, with any of its API calls failing, does the configured steps in order up to the first failure; the `TlsOutcome` rows say what that amounts to |
| `SharedTls.Singleton.CreateOrUpdate` | operator/internal/controller/clustertls_singleton.go:261-292 | creates, overwrites the spec only, or leaves alone |
| `SharedTls.StepsIndependent` | operator/internal/controller/clustertls_singleton.go:130-176 | no two steps of a pass undo each other |
| `SharedTls.SecondPassChangesNothing` | operator/internal/controller/clustertls_singleton.go:99-179 | after a pass that returns nil, from any cluster state and any earlier mode, a second pass changes nothing and succeeds if its calls do, whether the server stores Gateways as they are or adds fields to them |
| `TlsOutcome.PassInstallsCurrentSecret` | operator/internal/controller/clustertls_singleton.go:99-179 | after a pass that returns nil, from any cluster state and any earlier mode: listener "llm-https" on the external Gateway serves "llm." + baseDomain and "llm-internal-https" on the internal one serves "llm-internal." + baseDomain, both with the user's Secret if one is named and "nebari-llm-shared-tls" otherwise; each Gateway namespace other than the operator's has a grant "nebari-llm-shared-tls-from-<namespace>" for exactly that Secret; and the Certificate asks the configured issuer for exactly those two hosts, or does not exist if a Secret is named |
| `TlsOutcome.UndisturbedPassFailsExactly` | operator/internal/controller/clustertls_singleton.go:99-179 | without API errors a pass fails if and only if a Certificate is wanted and no issuer is configured, or one of the Gateways to patch has a spec or a listener list of another type |
| `TlsOutcome.PassWritesOwnedOnly` | operator/internal/controller/clustertls_singleton.go:99-179 | however a pass ends, it writes nothing but the Certificate, the grants for the Gateways' namespaces and, if it manages listeners, the two Gateways; nothing at all without a base domain or an operator namespace |
| `TlsOutcome.PassKeepsTheRest` | operator/internal/controller/clustertls_singleton.go:261-292 | of the Certificate and the grants only the spec is ever written; a new one carries its own name, namespace and the three operator labels |
| `TlsOutcome.PassKeepsGateways` | operator/internal/controller/clustertls_singleton.go:294-331 | a pass makes no Gateway and removes none |
| `TlsOutcome.ListenersComeLast` | operator/internal/controller/clustertls_singleton.go:119-176 | however a pass ends, it has changed a Gateway only if the grants and, in managed mode, the Certificate of the Secret its listeners name are in place |
| `SharedTls.EnsureSettledExactly` | operator/internal/controller/clustertls_singleton.go:277-292 | an ensured object is left alone exactly if its spec compares equal, so a server that adds defaults is overwritten on every pass |
| `SharedTls.PassTouchesNamedOnly` | operator/internal/controller/clustertls_singleton.go:99-179 | objects no step names are untouched, however the pass ends |
| `SharedTls.PassKeepsForeignListeners` | operator/internal/controller/reconcilers/clustertls.go:161-176 | on any Gateway every listener other than the two shared ones keeps its place and its value, up to fields the server itself adds, however the pass ends |
| `Deployments.ServiceReconciler.ReconcileDeployment` | operator/internal/controller/llmmodel_controller.go:326-363 | creates, updates in place or deletes, or leaves everything if a call fails |
| `Deployments.HashForLife` | operator/internal/controller/llmmodel_controller.go:338-355 | over any run with edits, outside deletions, lagging reads and failed calls, an incarnation with a hash keeps it for life |
| `Deployments.InPlaceMeansSameHash` | operator/internal/controller/llmmodel_controller.go:348-355 | a pass writes into an existing incarnation only if its hash is absent or the fetched model's, and leaves that model's spec |
| `Deployments.Converges` | operator/internal/controller/llmmodel_controller.go:326-363 | for a fixed spec one successful pass suffices exactly when no replacement is due, two always do, with failed passes anywhere |
| `Deployments.StaysUpToDate` | operator/internal/controller/llmmodel_controller.go:348-355 | further passes keep hash, spec and incarnation |
| `Deployments.ReplacedExactly` | operator/internal/controller/llmmodel_controller.go:338-347 | the old incarnation survives exactly if it had no hash or the current one |
| `Deployments.OneLengthChangedIsSeen` | operator/internal/controller/llmmodel_controller.go:589-598 | the hashed text distinguishes two models whenever at most one of the six fields changes its length |
| `Deployments.EditReplaces` | operator/internal/controller/llmmodel_controller.go:587-598 | an edit of at most one of the six hashed fields, and of any other fields, replaces the Deployment if and only if it changes that one field, if the digest tells the two texts apart |
| `Deployments.BoundaryShiftUnseen` | operator/internal/controller/llmmodel_controller.go:587-598 | a shift of text across a field boundary is not noticed |
| `Access.Watcher.Sync` | key-manager/internal/models/watcher.go:45-104 | replaces the cache by both listings, or keeps it if either fails |
| `Access.CacheExact` | key-manager/internal/models/watcher.go:41-44 | no listed model evicts another: exactly one entry for each, of either kind |
| `Access.CacheShows` | key-manager/internal/models/watcher.go:56-92 | a listed model's entry has its own name, namespace, served name, groups and kind, and is public exactly if the field is set to true |
| `Access.GateOnModels` | key-manager/internal/models/watcher.go:56-145 | over the listed models themselves: the gate for a name passes if and only if some listed model of that name has the public field set to true or has one of its groups among the caller's |
| `Access.SyncThenAsk` | key-manager/internal/models/watcher.go:45-145 | the same for the code: a successful synchronisation followed by the gate |
| `Access.Watcher.FilterModelsForUser` | key-manager/internal/models/watcher.go:122-145 | exactly the models the groups give access to, each once |
| `Access.Watcher.HasAccess` | key-manager/internal/api/handler.go:158-171 | the gate before minting passes exactly if some accessible model has the name |
| `Access.GateForUniqueName` | key-manager/internal/api/handler.go:158-171 | with unique names that is the access relation of the model itself |
| `Access.GateFaithfulExactly` | key-manager/internal/models/watcher.go:118-145 | with shared names it is so exactly if no namesake is more open |
| `Access.NamesUniqueExactly` | operator/internal/webhook/v1alpha1/llmmodel_webhook.go:125-164 | over all histories a name belongs to one model of either kind if and only if the webhooks know the operator's namespace |
| `Access.SameNameTwice` | operator/internal/webhook/v1alpha1/passthroughmodel_webhook.go:144-157 | without it one name is admitted twice, in two namespaces |
| `Access.RequestExactly` | operator/internal/webhook/v1alpha1/llmmodel_webhook.go:125-164 | over all histories a Create stores the model if and only if no model of either kind has its namespace and name and the namespace is the operator's, as far as that is known; an Update changes no name and a Delete takes exactly its model away |
| `Access.ExistingMayChange` | operator/internal/webhook/v1alpha1/passthroughmodel_webhook.go:144-157 | whatever was admitted before, an Update or a Delete is admitted exactly if the model exists |
| `Access.RegistryGivesUniqueNames` | operator/internal/webhook/v1alpha1/passthroughmodel_webhook.go:242-259 | the cache of models admitted that way has unique names |
| `Audit.SyncThenAudit` | key-manager/cmd/main.go:86-110 | for models the webhooks admitted, after a successful synchronisation and a nil audit: a listed model whose public field is not set to true has lost exactly the keys whose creator's lookup succeeded with none of the model's groups, from both objects, and the keys of one whose field is true are as they were |
| `Access.BuildJWTPolicy` | operator/internal/controller/reconcilers/auth.go:246-343 | the internal policy permits a token exactly if the model is public or the groups claim meets its groups |
| `Audit.HasOverlap` | key-manager/internal/audit/auditor.go:139-146 | true exactly if the two share a group |
| `Audit.Auditor.RunOnce` | key-manager/internal/audit/auditor.go:72-136 | over the watcher's models: with unique names every store is audited once, others are untouched and the errors are exactly the failed lists and revocations; after a nil result every listed key of a private model is gone if and only if its creator's lookup succeeded and the mint gate would deny that creator the model |
| `Audit.Auditor.AuditAll` | key-manager/internal/audit/auditor.go:76-130 | for any listing, each store becomes what its audits in order leave, and the errors are exactly those due |
| `Audit.UniqueNamesAuditOnce` | key-manager/internal/audit/auditor.go:76-130 | with unique names a model's keys see one audit, its own |
| `Audit.AuditAgreesWithMinting` | key-manager/internal/audit/auditor.go:97-127 | an audit that reports nothing removes a listed key of a private model, from both objects, if and only if its creator's lookup succeeded and the mint gate would deny that creator the model |
| `Audit.UniqueNamesPass` | key-manager/internal/audit/auditor.go:72-136 | what a pass over a listing does, in terms of the cached models, when names are unique |
| `Audit.FailuresAreIndependent` | key-manager/internal/audit/auditor.go:98-121 | a due revocation that does not itself fail happens whatever else fails |
| `Audit.OthersAreSpared` | key-manager/internal/audit/auditor.go:77-111 | all other keys stay |
| `Audit.OrphanIsReportedEveryPass` | key-manager/internal/audit/auditor.go:113-121 | an entry whose credential is gone is reported again by every pass and never cleaned up |
| `Audit.ConfigMapFaultOrphans` | key-manager/internal/secrets/manager.go:367-374 | a revocation whose ConfigMap write fails leaves such an entry |
| `Slug.NormalizedMeaning` | operator/internal/controller/reconcilers/common.go:26-30 | the replacements and the trim yield the alphanumeric words joined by single dashes |
| `Slug.SlugIsNormal` | operator/internal/controller/reconcilers/common.go:26-41 | only [a-z0-9-], no leading, trailing or doubled dash, at most 57 characters |
| `Slug.SlugExactly` | operator/internal/controller/reconcilers/common.go:26-41 | the value: the words joined by dashes, or, if that is over 48 characters, its first 48 without a dash left at the end, a dash and the name's eight hash digits |
| `Slug.SlugKept` | operator/internal/controller/reconcilers/common.go:26-34 | a name of at most 48 characters that is a slug already stays as it is |
| `Slug.IdempotentExactly` | operator/internal/controller/reconcilers/common.go:26-41 | idempotent exactly if the slug is at most 48 long or hashes like the name |
| `Slug.SameSlugExactly` | operator/internal/controller/reconcilers/common.go:20-41 | two names share a slug exactly if both are short with the same words, or both long with the same hash digits and kept part |
| `Slug.SubdomainExactly` | operator/internal/controller/reconcilers/common.go:85-99 | an override is taken as it is and fails exactly over 63 characters; without one the result is the name's slug and never fails |

## Left out

- KeyManager.Manager.CreateKey: `isConflict` is a substring test in the code and an enumerated failure here.
- KeyManager.ApiServer: the size limits of Kubernetes data keys and objects.
- Ledger: createdAt is an arbitrary time, not truncated to seconds; metadata round-trips faithfully through JSON, so unreadable entries do not occur.
- KeyManager.Manager.ListKeysForUser: every ConfigMap in the ledger is a metadata ConfigMap, so the check of the name's suffix is always passed.
- Freshness: what a reconcile pass does besides reading Secrets and writing the external policy; a cache that lags behind its own events.
- Jwks: signature, expiry, issuer and azp checks of a token; RSA key decoding; the semantics of singleflight are taken as given; the lengths of timers other than the cool-down and the back-off.
- JwksKeys.JWTValidator.InitialFetch: waiting itself is not modelled, only the pauses asked for; the slow poll ends when its given answers do.
- SharedTls.Singleton.Reconcile: the log messages about a user's Secret, the resync timer and leader election; the API server stores Certificates and grants as sent (`SharedTls.EnsureSettledExactly` says what happens otherwise).
- SpecTree: floating-point leaves.
- Deployments.ServiceReconciler.ReconcileDeployment: the ServiceAccount, Service and PodMonitor of the same pass; owner references.
- Deployments.OneLengthChangedIsSeen: edits that change the lengths of several fields at once may or may not be seen; no simpler exact condition than equality of the joined text is claimed.
- Access.NamesUniqueExactly: admission and persisting are one atomic step, so two concurrent creates of different kinds are not covered; the other validations of the webhooks (labels, hostnames, access lists) are left out.
- Audit.Auditor.RunOnce: no other writer acts during a pass; a write whose reply is lost, which the ledger has, is not among its faults; the lookup of a user's groups answers the same throughout it.
- Finalizers (reconcileDelete in both controllers): the ledger has their effect, the deletion of the Secret and the ConfigMap, at any moment.
- applyAll and the status conditions of PassthroughModels: field copying.
- Static builders (storage, serving container, inference pool, network policy, routes, backends) and configuration parsing: shallow.
- HTTP routing, the front end, the documentation plugin, the model downloader and the mock server.
