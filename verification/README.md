# The secret custody provider, verified

The provider keeps encrypted secrets in one SQLite file: version rows, resolution pins, generated
delegation keys, version revocations and an audit. This project models what its store, audit, API,
custody admission and authorizer do, and proves what their design promises over every run.

## How the model is built

| layer | modules | what it is |
|---|---|---|
| Text and crypto | `Json`, `JsonObjects`, `Crypto`, `Signing` | the JSON text of labels and associated data, a symbolic AEAD, the signing families |
| Tables | `Models`, `Tables` | rows, statements, the declared constraints, a transaction as a list of statements |
| Operations | `StoreSpec` | each store call as a plan over the tables, in the code's order of checks |
| Objects | `Store`, `Service` | the store, the audit store and the handlers as classes that change the tables in place, proved against the plans and routes |
| Meaning | `Vault`, `History` | the same calls on plain sequences of versions, their invariant, and history that only grows |
| Refinement | `Refinement`, `Simulation`, `Runs` | tables refine the vault over every run |
| Consequences | `AnyTables`, `Decisions`, `Replay`, `Stutter`, `Provenance`, `Tally` | effects and exact answers, replay, stuttering, origins, counting; `AnyTables`, `Decisions` and parts of `Stutter` and `Tally` need no invariant |
| Surroundings | `Concurrency`, `Authenticity`, `Custody` | interleaved clients, outside edits, admissions |
| Requests | `Auth`, `Bootstrap`, `Api`, `ApiRuns`, `Handlers`, `Serving` | credentials, routes, what runs made of routes keep, interleaved handlers |
| Responses | `Effects`, `Routes`, `Refusals` | what a response tells about tables and audit, on any database: each route from header to rows |

A `Runs.Event` is one completed store call, made under the provider's key with any key version text
and any drawn values, or a fault that changed nothing. Clock, `uuid4`, `os.urandom` and key
generation are parameters (`Models.Draw`). SHA-256, Ed25519 and PEM are arbitrary functions with the
laws in `Crypto.Lawful`: a serialized private key loads back, public PEM text is bounded, and a
hexadecimal digest has 64 characters. A ciphertext is what was sealed, with which key, nonce and
associated data, or bytes nobody sealed. A Dafny `string` is well-formed Unicode.

## Where code and expectation part

- Deleting the calls that reuse a correlation id from a run can be visible. It is invisible if and only
  if no remaining call is shadowed, that is, reaches its audit insert with an event id that a deleted
  replay wrote: `Stutter.DeletionIsInvisibleExactly`. `Stutter.SharedEventIdShowsDeletion` is a run
  with such a call.
- A bearer token that is not ASCII once stripped makes authentication raise an uncaught `TypeError`,
  exactly when there is any credential to compare it with: `Auth.BreaksExactly`.
- Custody binds the key and the provider id, not the key's version text:
  `Custody.KeyVersionIsNotBound`.
- `json.loads(json.dumps(t)) == t` fails for Python strings in which a high surrogate is directly
  followed by a low one, and holds for all others: `Json.TextRoundTripsExactly`.

## Model

| member | source | states |
|---|---|---|
| Json.TextRoundTripsExactly | src/control_plane_kit_secrets/store.py:734 | a dumped string scans back to itself, whatever text follows, if and only if no high surrogate code point stands directly before a low one |
| Json.ScanEscaped | src/control_plane_kit_secrets/store.py:900 | for every code point sequence and continuation, exactly what scanning its dumped form yields |
| JsonObjects.LabelsRoundTrip | src/control_plane_kit_secrets/store.py:734 | the stored labels column parses back to the label map that was written |
| JsonObjects.ObjectRoundTrip | src/control_plane_kit_secrets/store.py:900 | with either separator style a dumped label map parses back to the map and leaves the following text |
| JsonObjects.ValuePrefix | src/control_plane_kit_secrets/store.py:900 | a dumped text, number, null or label map before a delimiter determines both the value and the rest |
| JsonObjects.RecordInjective | src/control_plane_kit_secrets/store.py:886-900 | records with the same member names and the same text have the same member values |
| Models.ParseStatus | src/control_plane_kit_secrets/store.py:875 | a status column reads as a status exactly when it is that status's text |
| Crypto.Decrypt | src/control_plane_kit_secrets/crypto.py:40-44 | decryption yields a plaintext exactly for the ciphertext sealed from it under the same key, nonce and associated data |
| Crypto.AadInjective | src/control_plane_kit_secrets/store.py:886-900 | equal associated data means equal metadata in all eleven fields, null against text `revoked_at` included |
| Crypto.AadIsNoCustodyContext | src/control_plane_kit_secrets/custody.py:88-92 | no associated data of a version equals the context a custody witness is sealed under |
| Tables.ApplyKeepsSchema | src/control_plane_kit_secrets/store.py:48-133 | no statement can leave a declared unique or foreign-key constraint broken |
| Tables.CommitThree | src/control_plane_kit_secrets/store.py:910-917 | three statements in one transaction: all applied in order, or the first failure and the database as it was |
| StoreSpec.SealedRowReadsBack | src/control_plane_kit_secrets/store.py:854-884 | a row written for a metadata reads back to it and, under the provider's key, decrypts to the value |
| StoreSpec.AscendingOrders | src/control_plane_kit_secrets/store.py:841-852 | the rows of a secret come back each once, by ascending version number |
| StoreSpec.FailureChangesNothing | src/control_plane_kit_secrets/store.py:910-917 | a call that raises leaves all five tables as they were |
| Store.CleanLabels | src/control_plane_kit_secrets/store.py:924-938 | accepts a label map unchanged exactly when it is within all limits |
| Store.Database.End | src/control_plane_kit_secrets/store.py:910-917 | a raising body or a failing commit restores the tables; otherwise the body's effects stay |
| Store.Database.SelectLatest | src/control_plane_kit_secrets/store.py:827-839 | the highest-numbered row of a secret, if it has one |
| Store.Database.SelectAll | src/control_plane_kit_secrets/store.py:841-852 | all rows of a secret in ascending number order |
| Store.SqliteAuditStore.AppendInTransaction | src/control_plane_kit_secrets/audit.py:98-130 | one audit row in the caller's transaction, failing on a taken event id |
| Store.SqliteAuditStore.Append | src/control_plane_kit_secrets/audit.py:69-96 | one audit row in a transaction of its own, or `AuditUnavailable` and nothing |
| Store.EncryptedSecretStore.InsertVersion | src/control_plane_kit_secrets/store.py:684-741 | checks labels, seals, inserts: the outcome and effect of the insert plan |
| Store.EncryptedSecretStore.RevokeRow | src/control_plane_kit_secrets/store.py:743-787 | decrypts and updates the row to the same plaintext sealed under the revoked metadata, or fails and changes nothing |
| Store.EncryptedSecretStore.CreateSecret | src/control_plane_kit_secrets/store.py:281-298 | the tables and outcome of the create plan as one transaction; nothing when the commit fails |
| Store.EncryptedSecretStore.RotateSecret | src/control_plane_kit_secrets/store.py:300-330 | the tables and outcome of the rotate plan as one transaction; nothing when the commit fails |
| Store.EncryptedSecretStore.RevokeSecret | src/control_plane_kit_secrets/store.py:332-353 | the loop over all rows as one transaction: its updates and replies together, or nothing |
| Store.EncryptedSecretStore.RevokeSecretVersion | src/control_plane_kit_secrets/store.py:355-480 | update, revocation record and audit row of one version as one transaction, with the replay and conflict branches |
| Store.EncryptedSecretStore.ReadMetadata | src/control_plane_kit_secrets/store.py:482-496 | the metadata of the selected row, or the error, and unchanged tables |
| Store.EncryptedSecretStore.ResolveSecret | src/control_plane_kit_secrets/store.py:498-515 | the decrypted selected row unless revoked, and unchanged tables |
| Store.EncryptedSecretStore.ResolveSecretForUse | src/control_plane_kit_secrets/store.py:517-606 | the pin and the second read of the selected row as one transaction, with the replay and conflict branches |
| Store.EncryptedSecretStore.GenerationFromRow | src/control_plane_kit_secrets/store.py:621-682 | the identity of a recorded generation, check by check, with unreadable metadata as tampering; `Decisions.GenerationReplaysExactly` says what the checks amount to |
| Store.EncryptedSecretStore.GenerateDelegationKey | src/control_plane_kit_secrets/store.py:150-279 | version 1, generation record and audit row as one transaction, with the replay and conflict branches |
| AnyTables.UpdateRevokes | src/control_plane_kit_secrets/store.py:743-787 | on any database, re-encryption under the revoked metadata keeps the plaintext recoverable and touches one row |
| AnyTables.RevokeIsAllOrNothing | src/control_plane_kit_secrets/store.py:332-353 | whole-reference revocation succeeds if and only if the secret has rows and each reads and, unless revoked, decrypts; a failure changes nothing |
| AnyTables.RevokeChangesItsRows | src/control_plane_kit_secrets/store.py:332-353 | on success every row of the secret ends revoked: new ones at one shared time with their plaintext, earlier ones untouched, other secrets untouched |
| AnyTables.RevokeRepliesInOrder | src/control_plane_kit_secrets/store.py:341-353 | the reply has one metadata per row, by ascending number, as the rows then are |
| AnyTables.FirstRevocationChangesOneRow | src/control_plane_kit_secrets/store.py:417-480 | a first exact-version revocation changes the named active row, adds its revocation record and its audit row, and nothing else |
| AnyTables.WriteAddsOneRow | src/control_plane_kit_secrets/store.py:281-330 | create adds number 1; rotate adds one more than the highest number, whose row had the expected intent; nothing else changes |
| AnyTables.FirstGenerationAddsThreeRows | src/control_plane_kit_secrets/store.py:208-279 | a first generation adds version 1 with the private key and the family's labels, its public record and its audit row, and nothing else |
| AnyTables.FirstResolveAddsItsPin | src/control_plane_kit_secrets/store.py:551-606 | a first resolve adds exactly the pin of the version it returns |
| Decisions.CreateSucceedsExactly | src/control_plane_kit_secrets/store.py:281-298 | on any database, a create succeeds if and only if the labels are within their limits, the version id is new and the secret has no version 1 |
| Decisions.RotateSucceedsExactly | src/control_plane_kit_secrets/store.py:300-330 | on any database, a rotation succeeds if and only if the latest row reads and has the expected intent, and there is room for the next number |
| Decisions.MetadataRepliesExactly | src/control_plane_kit_secrets/store.py:482-496 | on any database, a metadata read replies exactly what the columns of the named or latest row say |
| Decisions.PlainResolveRepliesExactly | src/control_plane_kit_secrets/store.py:498-515 | on any database, a plain resolve returns a pair if and only if the named or latest row reads so, is active, and is the seal of the value under that metadata |
| Decisions.ResolveRepliesExactly | src/control_plane_kit_secrets/store.py:517-606 | on any database, a resolve for use returns a pair if and only if the pin, if any, is the request's own, and the pinned, named or latest row is active, has the intent and is the seal of the value under that metadata |
| Decisions.GenerationReplaysExactly | src/control_plane_kit_secrets/store.py:176-206 | on any database, what a generation under a recorded correlation answers: conflict, missing, tampered, revoked, audit failure, or the recorded identity; it is served if and only if the row has the family labels and unseals a key that derives the recorded public key and key id |
| Decisions.FirstCallSucceedsExactly | src/control_plane_kit_secrets/store.py:208-279 | on any database, a first generation or exact-version revocation succeeds if and only if it passes its guards and drew a free event id |
| Decisions.RevocationReplaysExactly | src/control_plane_kit_secrets/store.py:379-415 | on any database, what a revocation under a recorded correlation answers: conflict, missing, unreadable, audit failure, or the row's metadata and one audit row |
| History.PerformKeeps | src/control_plane_kit_secrets/store.py:136-606 | every call keeps the invariant over versions, pins, generations and revocations, and only grows the history |
| History.RevokingHolds | src/control_plane_kit_secrets/store.py:342-352 | any subset of a secret's versions may be revoked in place without breaking its numbering or ids |
| History.PinSurvives | src/control_plane_kit_secrets/store.py:72-89 | a pin still finds its version, with its intent, after any growth |
| History.GenerationSurvives | src/control_plane_kit_secrets/store.py:90-114 | a generation record still matches version 1 after any growth, rotation and revocation included |
| History.RevocationSurvives | src/control_plane_kit_secrets/store.py:115-132 | a revocation record still matches its revoked version after any growth |
| Refinement.LatestMatches | src/control_plane_kit_secrets/store.py:827-839 | where rows represent a sequence of versions, the latest row is its last element |
| Refinement.InsertMatches | src/control_plane_kit_secrets/store.py:713-741 | inserting the next number fails exactly on a taken version id and otherwise appends to the sequence |
| Refinement.UpdateMatches | src/control_plane_kit_secrets/store.py:771-787 | the revoking update is the revocation of one version in place |
| Simulation.CreateMatches | src/control_plane_kit_secrets/store.py:281-298 | create on the tables is create on the vault |
| Simulation.RotateMatches | src/control_plane_kit_secrets/store.py:300-330 | rotate on the tables is append on the vault |
| Simulation.RevokeSecretMatches | src/control_plane_kit_secrets/store.py:332-353 | the revoking loop on the tables is revocation of the whole sequence |
| Simulation.RevokeVersionMatches | src/control_plane_kit_secrets/store.py:369-480 | exact-version revocation on the tables is that of the vault, in every branch |
| Simulation.ResolveForUseMatches | src/control_plane_kit_secrets/store.py:529-606 | resolve on the tables is resolve on the vault, in every branch |
| Simulation.ReadGenerationMatches | src/control_plane_kit_secrets/store.py:621-682 | rereading a recorded generation finds version 1 revoked or returns its identity; it is never found tampered |
| Simulation.AllRowsMatch | src/control_plane_kit_secrets/store.py:841-852 | the rows of a secret in number order are its versions in order |
| Simulation.ExecuteMatches | src/control_plane_kit_secrets/store.py:136-606 | every call on tables that represent a vault has the vault's outcome and leaves tables that represent the next vault |
| Runs.VaultAlwaysHolds | src/control_plane_kit_secrets/store.py:136-606 | the invariant holds in every reachable state |
| Runs.RunRefines | src/control_plane_kit_secrets/store.py:136-606 | after every run the encrypted tables represent the vault |
| Runs.OutcomeRefines | src/control_plane_kit_secrets/store.py:136-606 | at every point of every run the next call's outcome is the vault's |
| Runs.NumbersHaveNoGaps | src/control_plane_kit_secrets/store.py:64-65 | in every reachable state a number is taken by a row of a secret if and only if it lies between 1 and the count of its rows |
| Runs.HistoryIsAppendOnly | src/control_plane_kit_secrets/store.py:743-787 | between any two times of a run no row is deleted; version rows at most turn from active to revoked, once, and decrypt to the same bytes |
| Runs.ResolveErrors | src/control_plane_kit_secrets/store.py:531-606 | a pinned resolve can only conflict or find its version revoked |
| Runs.IntegrityErrorsAreUnreachable | src/control_plane_kit_secrets/store.py:854-867 | no run meets a tampered or unreadable row, an untranslated constraint error, or a missing pinned or generated version |
| Replay.PinDecidesEveryRetry | src/control_plane_kit_secrets/store.py:531-606 | a success decides every later resolve under its correlation: conflict, its version revoked, or the same metadata and value |
| Replay.RevokedPinNeverServes | src/control_plane_kit_secrets/store.py:598-600 | once a retry finds the pinned version revoked, no later retry succeeds |
| Replay.FreshResolveReadsTheLatest | src/control_plane_kit_secrets/store.py:551-565 | a fresh resolve without a version reads the row numbered by the row count, and fails if that is revoked |
| Replay.GenerationDecidesEveryRetry | src/control_plane_kit_secrets/store.py:177-206 | a success decides every later generation under its correlation: conflict, revoked, audit failure, or the first public identity |
| Replay.GenerationIdentity | src/control_plane_kit_secrets/store.py:621-682 | each generation record is the only one of its secret and names version 1, whose labels are the family's and whose plaintext derives the public key and key id |
| Replay.RevocationDecidesEveryRetry | src/control_plane_kit_secrets/store.py:379-426 | a success decides every later revocation under its correlation: conflict, audit failure, or equal metadata |
| Replay.RevocationMatchesRow | src/control_plane_kit_secrets/store.py:387-400 | each revocation record names a present, revoked row with its number and time |
| Stutter.ReuseStutters | src/control_plane_kit_secrets/store.py:177-206 | on any database, a call under a used correlation id changes no table but the audit |
| Stutter.CallsAgree | src/control_plane_kit_secrets/store.py:136-606 | databases that differ only in their audits answer a call alike when both or neither have its event id |
| Stutter.ReachingCall | src/control_plane_kit_secrets/audit.py:98-130 | a call that passes the guards before its audit insert fails exactly on a taken event id |
| Stutter.DeletionIsInvisibleExactly | src/control_plane_kit_secrets/store.py:379-415 | deleting all reuses from a run keeps every other outcome if and only if no remaining append, first generation or first revocation passes its guards and draws an event id that a deleted replay wrote; it then keeps the four tables too |
| Stutter.DeletingReusesChangesNothing | src/control_plane_kit_secrets/store.py:379-415 | the case of fresh event ids: deletion keeps the four tables and every other outcome |
| Stutter.SharedEventIdShowsDeletion | src/control_plane_kit_secrets/audit.py:98-130 | a concrete run with such a call: an append that fails only because a replay took its event id |
| Provenance.EveryVersionHasAnOrigin | src/control_plane_kit_secrets/store.py:684-741 | every version of every reachable state was stored by one earlier successful call and since then at most revoked |
| Provenance.ResolvedWasStored | src/control_plane_kit_secrets/store.py:498-606 | a resolved pair was stored by an earlier call under exactly the returned metadata |
| Provenance.StoredOnce | src/control_plane_kit_secrets/store.py:64-65 | no two calls of a run store a version under the same key |
| Provenance.EveryRowHoldsWhatWasStored | src/control_plane_kit_secrets/store.py:684-741 | every row of every reachable state decrypts to what the create, rotate or generate call that inserted it stored, under its metadata or the revoked form of it |
| Tally.CallAdds | src/control_plane_kit_secrets/store.py:150-480 | on any database, the exact number of version, generation, revocation and audit rows each call adds |
| Tally.AuditMirrorsRecords | src/control_plane_kit_secrets/store.py:256-269 | generated-key audit rows equal generation records and version-revoked rows equal revocation records in every reachable state |
| Concurrency.NextKeeps | src/control_plane_kit_secrets/store.py:910-917 | begin, read, write, commit, rollback, failure, refusal, lock-free read, delivery and crash each keep the serial invariant |
| Concurrency.EveryInterleavingIsSerial | src/control_plane_kit_secrets/store.py:910-917 | after any interleaving the file holds the tables of a serial run in which every answer is its call's outcome |
| Concurrency.FaultsHaveCauses | src/control_plane_kit_secrets/store.py:910-917 | every fault in the serial run was put there by a step that failed or was refused |
| Concurrency.AnswersWithoutFailures | src/control_plane_kit_secrets/store.py:910-917 | where no step fails or is refused, every answer is its call's outcome at its place in the serial run, and none is a storage failure |
| Concurrency.UndisturbedCallsComplete | src/control_plane_kit_secrets/store.py:902-917 | a call begun on a free file and given its steps is answered with exactly its outcome and leaves exactly its effects and a free file, whatever other clients do in between |
| Concurrency.LooksComplete | src/control_plane_kit_secrets/store.py:482-515 | a lock-free read is answered at once with its outcome on the file, whoever holds the lock |
| Concurrency.AnswersWereCommitted | src/control_plane_kit_secrets/store.py:910-917 | an answered call's effects were in the file at some moment before the answer; a failed one changed nothing |
| Concurrency.SerialOrderIsRealTime | src/control_plane_kit_secrets/store.py:910-917 | a call answered before another began precedes it in the serial run |
| Concurrency.ConcurrentResolvesAgree | src/control_plane_kit_secrets/store.py:529-606 | two answered resolves under one correlation agree whatever interleaved |
| Authenticity.PlanSealsProperly | src/control_plane_kit_secrets/store.py:684-787 | every statement of every call seals nothing, an active version under its own metadata, or a revoked one |
| Authenticity.LedgerAlwaysHolds | src/control_plane_kit_secrets/crypto.py:37-44 | every ciphertext made under the key is an insert that happened, a revocation, or a custody witness |
| Authenticity.ResolvedWasInserted | src/control_plane_kit_secrets/store.py:854-900 | whatever was done to the rows from outside, a resolved pair was inserted earlier under exactly its eleven fields, active |
| Custody.VerifyBinding | src/control_plane_kit_secrets/custody.py:124-144 | the checks pass exactly for one binding row that seals the witness under this key for this provider |
| Custody.ProviderFile.AdmitProviderCustody | src/control_plane_kit_secrets/custody.py:36-85 | binds an object-free file or verifies a bound one, with every rejection rolled back |
| Custody.AdmissionDecides | src/control_plane_kit_secrets/custody.py:55-85 | an admission succeeds exactly on an object-free or compatibly bound file and changes only an object-free one |
| Custody.OneOwner | src/control_plane_kit_secrets/custody.py:55-73 | over admissions, calls and crashes all admitted handles share one key and provider id |
| Custody.BindingNeverChanges | src/control_plane_kit_secrets/custody.py:58-72 | once bound, schema and binding row never change |
| Custody.KeyVersionIsNotBound | src/control_plane_kit_secrets/custody.py:132-144 | the same key is admitted under two version texts |
| Custody.CustodyIsOneRun | src/control_plane_kit_secrets/custody.py:51-73 | the tables behind all admitted handles are those of one run under one key |
| Custody.AdmittedCallsMeetNoTampering | src/control_plane_kit_secrets/store.py:854-867 | no call through an admitted handle meets tampering, whichever keys were presented before |
| Custody.StoredBytesSurvive | src/control_plane_kit_secrets/store.py:743-787 | every row stays and decrypts under any later handle to the bytes it held before |
| Custody.EveryRowHoldsItsCall | src/control_plane_kit_secrets/store.py:707-741 | every row behind the admitted handles decrypts, under any of them, to the value of the call that inserted it, whichever handle that came through |
| Auth.GrantedExactly | src/control_plane_kit_secrets/auth.py:53-64 | a request is granted if and only if some grant of the credential covers action, workspace and intent |
| Auth.AuthenticatesExactly | src/control_plane_kit_secrets/auth.py:44-51 | with or without a header, a request is authenticated as a credential if and only if there is a header and it bears that credential's token |
| Auth.BreaksExactly | src/control_plane_kit_secrets/auth.py:48-50 | the comparison raises its uncaught `TypeError` exactly for a bearer token that is not ASCII once stripped, when there are credentials |
| Auth.TokenRoundTrips | src/control_plane_kit_secrets/auth.py:44-51 | presenting an admitted token, padded with any white space or not, authenticates its own credential |
| Auth.OrderDoesNotMatter | src/control_plane_kit_secrets/auth.py:48-51 | the order of the credential list matters for no request, with or without a header |
| Bootstrap.UniqueObject | src/control_plane_kit_secrets/bootstrap.py:62-68 | builds the dictionary of the pairs exactly when no key repeats |
| Bootstrap.AcceptedIsAdmissible | src/control_plane_kit_secrets/bootstrap.py:47-109 | every accepted document yields plain texts, stripped ASCII tokens, and no token twice |
| Bootstrap.DocumentRoundTrips | src/control_plane_kit_secrets/bootstrap.py:47-101 | within the size limit the document of a credential list yields the list if and only if the list is admissible |
| Bootstrap.AcceptedTokensAuthenticate | src/control_plane_kit_secrets/bootstrap.py:47-60 | from document to request, with or without a header: exactly the admitted tokens authenticate, each its own credential |
| Bootstrap.OmittedIntentsCoverAll | src/control_plane_kit_secrets/bootstrap.py:89-101 | a grant without an `intents` member covers every intent of its action and workspace |
| Bootstrap.OmittedGrantsGrantNothing | src/control_plane_kit_secrets/bootstrap.py:71-86 | a credential without a `grants` member is granted nothing |
| Api.AdmittedIsVetted | src/control_plane_kit_secrets/api.py:129-133 | a request reaches the store only from a declared credential whose token its header bears, and only if that credential is granted the action for the allowed intent |
| ApiRuns.OneDurableIntent | src/control_plane_kit_secrets/api.py:905-919 | in every state the routes reach, all rows of a secret carry one and the same allowed intent |
| ApiRuns.ReleasedWithPermission | src/control_plane_kit_secrets/api.py:597-644 | in a run of vetted calls with their callers, a resolved value goes to a caller itself granted resolve for its intent there, and was stored by a call whose own caller was granted that write, rotation or generation |
| ApiRuns.HandlersAreExhaustive | src/control_plane_kit_secrets/api.py:353-414 | no admitted request makes any handler fail on a store error it does not catch |
| ApiRuns.RotateCollides | src/control_plane_kit_secrets/store.py:739-740 | a rotation raises `SecretAlreadyExists` only on a version id its secret already has |
| Handlers.AuditConservation | src/control_plane_kit_secrets/api.py:985-1013 | stored, rotated and generated audit rows fall short of version rows by exactly the rows still owed, failed or lost to crashes; mirrored codes equal their records |
| Handlers.NothingLostWithoutFailures | src/control_plane_kit_secrets/api.py:985-1013 | without crashes, failing appends and reused event ids nothing is lost, and the counts are equal once no handler owes a row |
| Handlers.ReleasesAreRecorded | src/control_plane_kit_secrets/api.py:620-644 | every response with a value has a `secret-resolved` row of its own for that version and intent |
| Handlers.ReleasesArePermitted | src/control_plane_kit_secrets/api.py:597-644 | every response with a value goes to a client itself granted resolve for its intent there, and the value was stored by an earlier call for a client itself granted that write, rotation or generation |
| Handlers.StoreNeverCrashes | src/control_plane_kit_secrets/api.py:645-718 | with handlers interleaved, failing and crashing, no store answer crashes its handler |
| Handlers.HandlersMakeARun | src/control_plane_kit_secrets/api.py:119-126 | the database handlers work on is that of a run of vetted calls |
| Effects.RefusalsChangeOnlyTheAudit | src/control_plane_kit_secrets/api.py:227-254 | on any database, a refusal other than the 503 of a failed append means no version, pin, generation or revocation changed |
| Effects.AuditFailureKeepsTheEffect | src/control_plane_kit_secrets/api.py:985-1013 | a failed append undoes nothing: the tables are those the store call left |
| Effects.SuccessIsAudited | src/control_plane_kit_secrets/api.py:207-226 | a response that is no refusal means the call was admitted, succeeded and committed, and the audit then gained exactly its records |
| Effects.AppendsExactly | src/control_plane_kit_secrets/api.py:985-1013 | appending records succeeds if and only if storage takes each under a fresh event id of its own; the audit then gained exactly them, and no other table changes |
| Routes.AsksExactly | src/control_plane_kit_secrets/api.py:144-864 | an authenticated request reaches the store if and only if it is well-formed and its client granted, and then with exactly the call it asks for, field by field |
| Routes.SucceedsExactly | src/control_plane_kit_secrets/api.py:129-864 | on any database, a request is answered without a refusal if and only if it bears the token of a client that may ask it, it is well-formed, its call succeeds and commits, and storage takes its audit rows |
| Routes.StoresAsAsked | src/control_plane_kit_secrets/api.py:162-226 | a write or rotation adds one row that holds the value sent under the labels sent and the intent, as number 1 or after the latest row of that intent, and exactly one audit row of it |
| Routes.ResolvesAsAsked | src/control_plane_kit_secrets/api.py:605-644 | a resolve serves the named, pinned or latest version of the secret named, active and of the intent named; it ends pinned for the caller and correlation named, with exactly one audit row of it |
| Routes.ResolveAnswersExactly | src/control_plane_kit_secrets/api.py:564-644 | on any database, a resolve is answered with a pair if and only if a client that may ask bears its token, the pin is the request's own, the chosen row serves the pair, and storage takes pin and row |
| Routes.ReadsAsAsked | src/control_plane_kit_secrets/api.py:825-848 | a metadata read replies what the columns of the named or latest row say, and leaves exactly one audit row of it |
| Routes.GeneratesAsAsked | src/control_plane_kit_secrets/api.py:316-342 | a generated or replayed key, its row, its record and its audit row name what the request asked for; a first one holds the key drawn, a replayed row unseals a key that derives the public one |
| Routes.RevokesVersionAsAsked | src/control_plane_kit_secrets/api.py:732-746 | an exact revocation replies the version named as it then reads, with its record and audit row under the caller and correlation named |
| Routes.RevokesAsAsked | src/control_plane_kit_secrets/api.py:775-794 | a whole revocation replies with each row of the secret once, in ascending order, as it then reads, and changes no other row |
| Routes.RevocationRecordsEveryVersion | src/control_plane_kit_secrets/api.py:776-790 | its audit gained exactly one row of its own for each version replied, with the version's id and allowed intent, and the caller and correlation given or their fallbacks |
| Refusals.RefusalsLeaveTheirRow | src/control_plane_kit_secrets/api.py:163-254 | on any database, a refusal changes no table, has the one status of its code, and leaves exactly the audit row that says it, or none on the routes and codes that record none |
| Refusals.StoreErrorsAreAnswered | src/control_plane_kit_secrets/api.py:645-718 | a store error is answered by the code of its kind, or crashes a route that does not catch it, and changes no table |
| Refusals.DeniesExactly | src/control_plane_kit_secrets/api.py:129-133 | 401 if and only if the header bears no declared token; 403 for its scope if and only if it bears that of a client without the grant and what is checked first holds |
| Serving.ServedAlone | src/control_plane_kit_secrets/api.py:144-864 | the interleaved handlers, let alone for one request, take steps that leave the tables and give the response of the request in one piece |
| Service.SecretsApi.Conclude | src/control_plane_kit_secrets/api.py:776-790 | appends the records in order, each in its own transaction, and stops with 503 at the first failure |
| Service.SecretsApi.Write | src/control_plane_kit_secrets/api.py:144-254 | the whole write handler: checks, store call, records, response |
| Service.SecretsApi.Generate | src/control_plane_kit_secrets/api.py:259-414 | the whole generate handler |
| Service.SecretsApi.Rotate | src/control_plane_kit_secrets/api.py:417-556 | the whole rotate handler |
| Service.SecretsApi.Resolve | src/control_plane_kit_secrets/api.py:559-718 | the whole resolve handler, with its record for unauthenticated requests |
| Service.SecretsApi.RevokeVersion | src/control_plane_kit_secrets/api.py:724-756 | the whole exact-version revocation handler |
| Service.SecretsApi.Revoke | src/control_plane_kit_secrets/api.py:759-822 | the whole revocation handler, with one append per version |
| Service.SecretsApi.ReadMetadata | src/control_plane_kit_secrets/api.py:825-864 | the whole metadata handler |

## Left out

- Stutter.DeletingReusesChangesNothing: states the case of fresh event ids only, as `uuid4` makes them; the exact condition is `Stutter.DeletionIsInvisibleExactly`.
- Custody.AdmissionDecides: takes the twelve random bytes of the binding nonce as twelve bytes, which `os.urandom(12)` returns.
- SQLite beyond the write lock, atomic commit and declared constraints: busy timeouts and disk errors are faults without effect, and a crash falls before or after a commit.
- The mathematics of AES-GCM, SHA-256 and Ed25519, and PEM encoding: the AEAD is symbolic, the others are functions with the laws of `Crypto.Lawful`.
- Labels columns that hold JSON other than an object of strings, or lone surrogates: both read as an unreadable row, which generation replay reports as tampering.
- Lone surrogates in identifiers and label values: these are well-formed Unicode in the model; `Json` alone treats them.
- Schema text and its canonical form: a file's schema is object-free, as declared, or other.
- `_valid_secret_reference`: depends on a URL library and is an arbitrary predicate of the application.
- The framework: routing, request validation, status texts and response bodies; its bounds on generation requests are `ApiRuns.WithinBounds`. Base64 arrives decoded or refused.
- Process start-up, file permissions, the control receiver and the health routes.
- JSON tokens of the credential document: decoding starts from the object pairs the hook sees.
- The `sqlite3` row-selection engine: ordered queries pick the first or last row by number.
- The clock: times are texts in no order, so nothing is said about when one time is later than another.
