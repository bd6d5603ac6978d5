/** Runs of calls on an initially empty database: what holds after every one of them. */
module Runs {
  import opened Wrappers
  import opened Models
  import opened Crypto
  import opened Signing
  import opened Tables
  import opened StoreSpec
  import opened Vault
  import opened History
  import opened Refinement
  import opened Simulation

  /** A completed call through a handle with the provider's key, or one that storage failed. */
  datatype Event = Called(keyVersion: string, draw: Draw, request: Request) | Faulted

  /** The key that owns the database, and the primitives it is used with. */
  datatype Provider = Provider(primitives: Primitives, key: Bytes)

  function EnvOf(provider: Provider, keyVersion: string): Env
  {
    Env(provider.primitives, MasterKey(provider.key, keyVersion))
  }

  ghost function Step(provider: Provider, e: Event, db: Db): (Db, Outcome)
  {
    match e
    case Called(keyVersion, draw, request) => Execute(EnvOf(provider, keyVersion), draw, request, db)
    case Faulted => (db, Failure(StorageFailure))
  }

  function VaultStep(provider: Provider, e: Event, v: Vault): (Vault, Outcome)
  {
    match e
    case Called(keyVersion, draw, request) => Perform(EnvOf(provider, keyVersion), draw, request, v)
    case Faulted => (v, Failure(StorageFailure))
  }

  /** The tables before event `n`. */
  ghost function TablesAt(provider: Provider, events: seq<Event>, n: nat): Db
    requires n <= |events|
  {
    if n == 0 then EMPTY_DB else Step(provider, events[n - 1], TablesAt(provider, events, n - 1)).0
  }

  ghost function OutcomeAt(provider: Provider, events: seq<Event>, n: nat): Outcome
    requires n < |events|
  {
    Step(provider, events[n], TablesAt(provider, events, n)).1
  }

  function VaultAt(provider: Provider, events: seq<Event>, n: nat): Vault
    requires n <= |events|
  {
    if n == 0 then EMPTY_VAULT else VaultStep(provider, events[n - 1], VaultAt(provider, events, n - 1)).0
  }

  // ----- Prefixes of a run ------------------------------------------------------------------

  lemma {:induction false} TablesAtPrefix(provider: Provider, a: seq<Event>, b: seq<Event>, n: nat)
    requires n <= |a| && n <= |b| && a[..n] == b[..n]
    ensures TablesAt(provider, a, n) == TablesAt(provider, b, n)
  {
    if n > 0 {
      assert a[..n][..n - 1] == a[..n - 1] && b[..n][..n - 1] == b[..n - 1];
      assert a[n - 1] == a[..n][n - 1] == b[..n][n - 1] == b[n - 1];
      TablesAtPrefix(provider, a, b, n - 1);
    }
  }

  lemma TablesAfterOneMore(provider: Provider, events: seq<Event>, e: Event)
    ensures TablesAt(provider, events + [e], |events| + 1)
            == Step(provider, e, TablesAt(provider, events, |events|)).0
  {
    assert (events + [e])[..|events|] == events == events[..|events|];
    TablesAtPrefix(provider, events, events + [e], |events|);
  }

  lemma OutcomeAfterOneMore(provider: Provider, events: seq<Event>, e: Event)
    ensures OutcomeAt(provider, events + [e], |events|) == Step(provider, e, TablesAt(provider, events, |events|)).1
  {
    hide Step, TablesAt;
    TablesAtPrefix(provider, events, events + [e], |events|);
  }

  lemma OutcomeAtPrefix(provider: Provider, a: seq<Event>, b: seq<Event>, n: nat)
    requires n < |a| && a <= b
    ensures OutcomeAt(provider, b, n) == OutcomeAt(provider, a, n)
  {
    hide Step, TablesAt;
    TablesAtPrefix(provider, a, b, n);
  }

  // ----- The tables refine the vault over every run -----------------------------------------

  lemma StepKeeps(provider: Provider, e: Event, v: Vault)
    requires Lawful(provider.primitives) && VaultHolds(provider.primitives, provider.key, v)
    ensures VaultHolds(provider.primitives, provider.key, VaultStep(provider, e, v).0)
    ensures Grows(v, VaultStep(provider, e, v).0)
  {
    hide Grows, VaultHolds, Perform;
    if e.Called? {
      PerformKeeps(EnvOf(provider, e.keyVersion), e.draw, e.request, v);
    } else {
      GrowsReflexive(v);
    }
  }

  lemma {:induction false} VaultAlwaysHolds(provider: Provider, events: seq<Event>, n: nat)
    requires Lawful(provider.primitives) && n <= |events|
    ensures VaultHolds(provider.primitives, provider.key, VaultAt(provider, events, n))
  {
    if n > 0 {
      VaultAlwaysHolds(provider, events, n - 1);
      StepKeeps(provider, events[n - 1], VaultAt(provider, events, n - 1));
    }
  }

  lemma StepMatches(provider: Provider, e: Event, db: Db, v: Vault)
    requires VaultHolds(provider.primitives, provider.key, v) && Represents(provider.key, db, v)
    ensures Matches(provider.key, Step(provider, e, db), VaultStep(provider, e, v))
  {
    if e.Called? {
      ExecuteMatches(EnvOf(provider, e.keyVersion), e.draw, e.request, db, v);
    }
  }

  /** After every run the tables represent the vault. */
  lemma {:induction false} RunRefines(provider: Provider, events: seq<Event>, n: nat)
    requires Lawful(provider.primitives) && n <= |events|
    ensures Represents(provider.key, TablesAt(provider, events, n), VaultAt(provider, events, n))
  {
    hide Step, VaultStep;
    if n > 0 {
      RunRefines(provider, events, n - 1);
      VaultAlwaysHolds(provider, events, n - 1);
      StepMatches(provider, events[n - 1], TablesAt(provider, events, n - 1), VaultAt(provider, events, n - 1));
    }
  }

  /** After every run the next call on the tables has the outcome it has on the vault. */
  lemma OutcomeRefines(provider: Provider, events: seq<Event>, n: nat)
    requires Lawful(provider.primitives) && n < |events|
    ensures OutcomeAt(provider, events, n) == VaultStep(provider, events[n], VaultAt(provider, events, n)).1
  {
    RunRefines(provider, events, n);
    VaultAlwaysHolds(provider, events, n);
    StepMatches(provider, events[n], TablesAt(provider, events, n), VaultAt(provider, events, n));
  }

  lemma {:induction false} VaultGrows(provider: Provider, events: seq<Event>, n: nat, m: nat)
    requires Lawful(provider.primitives) && n <= m <= |events|
    ensures Grows(VaultAt(provider, events, n), VaultAt(provider, events, m))
    decreases m - n
  {
    hide Grows, VaultHolds, VaultStep;
    if n == m {
      GrowsReflexive(VaultAt(provider, events, n));
    } else {
      VaultGrows(provider, events, n, m - 1);
      VaultAlwaysHolds(provider, events, m - 1);
      var before := VaultAt(provider, events, m - 1);
      StepKeeps(provider, events[m - 1], before);
      GrowsTransitive(VaultAt(provider, events, n), before, VaultAt(provider, events, m));
    }
  }

  // ----- Numbering --------------------------------------------------------------------------

  /** In every reachable state the rows of a secret carry exactly the numbers 1 to their count. */
  lemma NumbersHaveNoGaps(provider: Provider, events: seq<Event>, n: nat, secret: SecretKey, number: int)
    requires Lawful(provider.primitives) && n <= |events|
    ensures var versions := TablesAt(provider, events, n).versions;
            NumberTaken(versions, secret, number) <==> 1 <= number <= |RowsOf(versions, secret)|
  {
    var db, v := TablesAt(provider, events, n), VaultAt(provider, events, n);
    var env := EnvOf(provider, "");
    RunRefines(provider, events, n);
    VaultAlwaysHolds(provider, events, n);
    AllRowsMatch(env, db, v, secret);
    AscendingOrders(db.versions, RowsOf(db.versions, secret));
    if NumberTaken(db.versions, secret, number) {
      var k :| k in db.versions && SecretOf(k) == secret && db.versions[k].versionNumber == number;
      RowIsVersion(env, db, v, k);
    }
    if 1 <= number <= |Versions(v, secret)| {
      VersionPlaced(env, db, v, secret, number - 1);
    }
  }

  // ----- History ----------------------------------------------------------------------------

  /** Metadata later on: unchanged, or revoked once from active with everything else unchanged. */
  predicate MetadataFollows(before: Metadata, after: Metadata)
  {
    after == before
    || (before.status == Active && after.revokedAt.Some? && after == AsRevoked(before, after.revokedAt.value))
  }

  /** A row read at two times of a run: it is still there, its metadata at most got revoked, and it
      decrypts to the same bytes. */
  ghost predicate RowFollows(env: Env, k: VersionKey, before: VersionRow, after: VersionRow)
  {
    var a, b := MetadataFromRow(k, before), MetadataFromRow(k, after);
    && a.Some? && b.Some? && MetadataFollows(a.value, b.value)
    && DecryptRow(env, k, before).Success? && DecryptRow(env, k, after) == DecryptRow(env, k, before)
  }

  lemma RowSurvives(env: Env, a: Db, v: Vault, b: Db, w: Vault, k: VersionKey)
    requires SecretsHold(env.primitives, env.master.key, v) && Represents(env.master.key, a, v)
    requires SecretsHold(env.primitives, env.master.key, w) && Represents(env.master.key, b, w)
    requires Grows(v, w) && k in a.versions
    ensures k in b.versions && RowFollows(env, k, a.versions[k], b.versions[k])
  {
    RowIsVersion(env, a, v, k);
    var secret, i := SecretOf(k), a.versions[k].versionNumber - 1;
    assert HistoryGrows(v.secrets[secret], w.secrets[secret]);
    var before, after := Versions(v, secret)[i], Versions(w, secret)[i];
    assert VersionFollows(before, after);
    VersionReads(env, a, v, secret, i);
    VersionReads(env, b, w, secret, i);
    assert MetadataFollows(before.metadata, after.metadata);
  }

  /** No row of any table is ever deleted; version rows only turn from active to revoked, once, and
      always decrypt under the provider's key to the bytes first stored. */
  lemma HistoryIsAppendOnly(provider: Provider, events: seq<Event>, n: nat, m: nat, keyVersion: string)
    requires Lawful(provider.primitives) && n <= m <= |events|
    ensures var a, b := TablesAt(provider, events, n), TablesAt(provider, events, m);
            && (forall k | k in a.versions ::
                  k in b.versions && RowFollows(EnvOf(provider, keyVersion), k, a.versions[k], b.versions[k]))
            && Kept(a.book.pins, b.book.pins) && Kept(a.book.generations, b.book.generations)
            && Kept(a.book.revocations, b.book.revocations) && Kept(a.book.audit, b.book.audit)
  {
    var a, b := TablesAt(provider, events, n), TablesAt(provider, events, m);
    RunRefines(provider, events, n);
    RunRefines(provider, events, m);
    VaultAlwaysHolds(provider, events, n);
    VaultAlwaysHolds(provider, events, m);
    VaultGrows(provider, events, n, m);
    VaultHasSecrets(provider.primitives, provider.key, VaultAt(provider, events, n));
    VaultHasSecrets(provider.primitives, provider.key, VaultAt(provider, events, m));
    forall k | k in a.versions
      ensures k in b.versions && RowFollows(EnvOf(provider, keyVersion), k, a.versions[k], b.versions[k])
    {
      RowSurvives(EnvOf(provider, keyVersion), a, VaultAt(provider, events, n), b, VaultAt(provider, events, m), k);
    }
  }

  // ----- Errors -----------------------------------------------------------------------------

  /** The errors a call can raise on a database no one edited from outside. */
  function PossibleErrors(request: Request): set<Error>
  {
    match request
    case Create(_, _, _, _) => {MetadataInvalid, AlreadyExists}
    case Rotate(_, _, _, _, _) => {Missing, IntentMismatch, MetadataInvalid, AlreadyExists}
    case RevokeSecret(_, _) => {Missing}
    case RevokeVersion(_, _, _, _, _, _, _) => {RevocationConflict, Missing, SecretRevoked, AuditUnavailable}
    case ResolveForUse(_, _, _, _, _, _) => {ResolutionConflict, Missing, SecretRevoked, IntentMismatch}
    case Generate(_, _, _, _, _, _, _, _, _) =>
      {MetadataInvalid, GenerationConflict, SecretRevoked, AlreadyExists, AuditUnavailable}
    case ReadMetadata(_, _, _) => {Missing}
    case Resolve(_, _, _) => {Missing, SecretRevoked}
    case AppendAudit(_) => {AuditUnavailable}
  }

  lemma GenerateErrors(env: Env, draw: Draw, request: Request, v: Vault)
    requires VaultHolds(env.primitives, env.master.key, v) && request.Generate?
    ensures var outcome := Perform(env, draw, request, v).1;
            outcome.Failure? ==> outcome.error in PossibleErrors(request)
  {
    hide VaultHolds, IntentFor, FamilyLabels, LabelsClean;
    var at := CorrelationKey(request.workspaceId, request.correlationId);
    if at in v.book.generations {
      VaultHasGeneration(env.primitives, env.master.key, v, at);
    }
  }

  /** In every reachable state a pinned version is found, so `Missing` is left to unpinned resolves. */
  lemma ResolveErrors(env: Env, draw: Draw, request: Request, v: Vault)
    requires VaultHolds(env.primitives, env.master.key, v) && request.ResolveForUse?
    ensures var outcome := Perform(env, draw, request, v).1;
            outcome.Failure? ==>
              outcome.error in PossibleErrors(request)
              && (CorrelationKey(request.workspaceId, request.correlationId) in v.book.pins ==>
                    outcome.error in {ResolutionConflict, SecretRevoked})
  {
    hide VaultHolds;
    var at := CorrelationKey(request.workspaceId, request.correlationId);
    if at in v.book.pins {
      VaultHasPin(env.primitives, env.master.key, v, at);
    }
  }

  lemma PerformErrors(env: Env, draw: Draw, request: Request, v: Vault)
    requires VaultHolds(env.primitives, env.master.key, v)
    ensures var outcome := Perform(env, draw, request, v).1;
            outcome.Failure? ==> outcome.error in PossibleErrors(request)
  {
    hide VaultHolds, LabelsClean;
    match request
    case Generate(_, _, _, _, _, _, _, _, _) =>
      hide GenerateKey;
      GenerateErrors(env, draw, request, v);
    case ResolveForUse(_, _, _, _, _, _) =>
      hide ResolvePinned;
      ResolveErrors(env, draw, request, v);
    case _ =>
  }

  /** No run meets a tampered or unreadable row or an untranslated constraint error, and a pinned or
      generated version is never missing. */
  lemma IntegrityErrorsAreUnreachable(provider: Provider, events: seq<Event>, n: nat)
    requires Lawful(provider.primitives) && n < |events| && events[n].Called?
    ensures var outcome := OutcomeAt(provider, events, n);
            outcome.Failure? ==> outcome.error in PossibleErrors(events[n].request)
  {
    OutcomeRefines(provider, events, n);
    VaultAlwaysHolds(provider, events, n);
    PerformErrors(EnvOf(provider, events[n].keyVersion), events[n].draw, events[n].request,
                  VaultAt(provider, events, n));
  }
}
