/** Replay by correlation id over whole runs: what an earlier success decides for every later call. */
module Replay {
  import opened Wrappers
  import opened JsonObjects
  import opened Models
  import opened Crypto
  import opened Signing
  import opened Tables
  import opened StoreSpec
  import opened Vault
  import opened History
  import opened Refinement
  import opened Simulation
  import opened Runs

  /** Event `n` is a call that succeeded. */
  ghost predicate SucceedsAt(provider: Provider, events: seq<Event>, n: nat)
  {
    n < |events| && events[n].Called? && OutcomeAt(provider, events, n).Success?
  }

  /** The vault just after event `i` and at a later event `j`, with everything that relates them. */
  lemma Between(provider: Provider, events: seq<Event>, i: nat, j: nat)
    requires Lawful(provider.primitives) && i < j < |events|
    ensures var a, b := VaultAt(provider, events, i + 1), VaultAt(provider, events, j);
            && VaultHolds(provider.primitives, provider.key, a) && VaultHolds(provider.primitives, provider.key, b)
            && Grows(a, b)
            && a == VaultStep(provider, events[i], VaultAt(provider, events, i)).0
  {
    VaultAlwaysHolds(provider, events, i + 1);
    VaultAlwaysHolds(provider, events, j);
    VaultGrows(provider, events, i + 1, j);
  }

  lemma SameBook(provider: Provider, events: seq<Event>, n: nat)
    requires Lawful(provider.primitives) && n <= |events|
    ensures TablesAt(provider, events, n).book == VaultAt(provider, events, n).book
  {
    RunRefines(provider, events, n);
  }

  /** The row of version `id` is present and revoked. */
  ghost predicate RowRevoked(db: Db, workspaceId: string, secretId: string, id: string)
  {
    var k := VersionKey(workspaceId, secretId, id);
    k in db.versions && db.versions[k].status == StatusText(Revoked)
  }

  lemma RowRevokedIsStatus(provider: Provider, events: seq<Event>, n: nat, secret: SecretKey, i: nat)
    requires Lawful(provider.primitives) && n <= |events|
    requires i < |Versions(VaultAt(provider, events, n), secret)|
    ensures var m := Versions(VaultAt(provider, events, n), secret)[i].metadata;
            RowRevoked(TablesAt(provider, events, n), secret.workspaceId, secret.secretId, m.versionId)
            <==> m.status == Revoked
  {
    var db, v := TablesAt(provider, events, n), VaultAt(provider, events, n);
    RunRefines(provider, events, n);
    VaultAlwaysHolds(provider, events, n);
    VaultHasSecrets(provider.primitives, provider.key, v);
    VersionPlaced(EnvOf(provider, ""), db, v, secret, i);
    assert RowStored(provider.key, db, v.secrets[secret][i]);
    assert ParseStatus(StatusText(Revoked)) == Some(Revoked) && ParseStatus(StatusText(Active)) == Some(Active);
  }

  // ----- Resolve for use --------------------------------------------------------------------

  /** After a successful resolve its pin selects the version it returned. */
  lemma ResolvePins(env: Env, draw: Draw, v: Vault, secret: SecretKey, intent: string, callerSubject: string,
                    correlationId: string, version: Option<string>)
    requires VaultHolds(env.primitives, env.master.key, v)
    requires ResolvePinned(draw, v, secret, intent, callerSubject, correlationId, version).1.Success?
    ensures var (after, outcome) := ResolvePinned(draw, v, secret, intent, callerSubject, correlationId, version);
            var at := CorrelationKey(secret.workspaceId, correlationId);
            && outcome.value.Resolved? && at in after.book.pins
            && var pin := after.book.pins[at];
            && pin.secretId == secret.secretId && pin.intent == intent && pin.callerSubject == callerSubject
            && pin.versionId == outcome.value.metadata.versionId
            && var i := IndexOf(Versions(after, secret), pin.versionId);
            && i.Some?
            && Versions(after, secret)[i.value] == Version(outcome.value.metadata, outcome.value.value)
            && UseOf(Versions(after, secret)[i.value], intent) == outcome
  {
    hide VaultHolds, SecretsHold, IndexOf, Select, Label;
    var at := CorrelationKey(secret.workspaceId, correlationId);
    if at in v.book.pins {
      VaultHasPin(env.primitives, env.master.key, v, at);
    } else {
      VaultHasSecrets(env.primitives, env.master.key, v);
      VersionOf(env.primitives, env.master.key, v, secret, Select(Versions(v, secret), version).value);
    }
  }

  /** A pinned version seen later sits at the same place and answers a matching retry as before, or
      is revoked. */
  lemma PinnedUse(p: Primitives, key: Bytes, a: Vault, b: Vault, secret: SecretKey, id: string, intent: string)
    requires Grows(a, b) && SecretsHold(p, key, b) && IndexOf(Versions(a, secret), id).Some?
    requires UseOf(Versions(a, secret)[IndexOf(Versions(a, secret), id).value], intent).Success?
    ensures var i := IndexOf(Versions(a, secret), id).value;
            && IndexOf(Versions(b, secret), id) == Some(i)
            && UseOf(Versions(b, secret)[i], intent)
               == if Versions(b, secret)[i].metadata.status == Revoked then Failure(SecretRevoked)
                  else UseOf(Versions(a, secret)[i], intent)
  {
    hide IndexOf, Label;
    var vs, ws := a.secrets[secret], b.secrets[secret];
    assert SecretHolds(p, key, secret, ws);
    forall i: nat | i < |ws| ensures IndexOf(ws, ws[i].metadata.versionId) == Some(i) {
      assert VersionHolds(p, key, secret, ws, i);
    }
    IndexOfGrows(vs, ws, id);
    var i := IndexOf(vs, id).value;
    assert VersionFollows(vs[i], ws[i]);
  }

  lemma PinKept(a: Vault, b: Vault, at: CorrelationKey)
    requires Grows(a, b) && at in a.book.pins
    ensures at in b.book.pins && b.book.pins[at] == a.book.pins[at]
  {
  }

  /** A successful resolve decides every later resolve under its correlation, whatever ran between:
      another secret, intent, caller or explicit version is a conflict; a matching retry returns the
      same metadata and value, or finds exactly that version revoked. */
  lemma PinDecidesEveryRetry(provider: Provider, events: seq<Event>, i: nat, j: nat)
    requires Lawful(provider.primitives) && i < j < |events|
    requires SucceedsAt(provider, events, i) && events[i].request.ResolveForUse?
    requires events[j].Called? && events[j].request.ResolveForUse?
    requires var a, b := events[i].request, events[j].request;
             a.workspaceId == b.workspaceId && a.correlationId == b.correlationId
    ensures var a, b := events[i].request, events[j].request;
            var first := OutcomeAt(provider, events, i);
            && first.value.Resolved?
            && var id := first.value.metadata.versionId;
            OutcomeAt(provider, events, j)
            == if b.secretId != a.secretId || b.intent != a.intent || b.callerSubject != a.callerSubject
                  || (b.version.Some? && b.version.value != id) then
                 Failure(ResolutionConflict)
               else if RowRevoked(TablesAt(provider, events, j), a.workspaceId, a.secretId, id) then
                 Failure(SecretRevoked)
               else first
  {
    hide VaultHolds, SecretsHold, Grows, UseOf, RowRevoked, OutcomeAt, TablesAt, VaultAt, IndexOf;
    Between(provider, events, i, j);
    OutcomeRefines(provider, events, i);
    OutcomeRefines(provider, events, j);
    VaultAlwaysHolds(provider, events, i);
    var a, b := VaultAt(provider, events, i + 1), VaultAt(provider, events, j);
    var request := events[i].request;
    var secret := SecretKey(request.workspaceId, request.secretId);
    ResolvePins(EnvOf(provider, events[i].keyVersion), events[i].draw, VaultAt(provider, events, i), secret,
                request.intent, request.callerSubject, request.correlationId, request.version);
    var at := CorrelationKey(request.workspaceId, request.correlationId);
    PinKept(a, b, at);
    VaultHasSecrets(provider.primitives, provider.key, b);
    PinnedUse(provider.primitives, provider.key, a, b, secret, a.book.pins[at].versionId, request.intent);
    RowRevokedIsStatus(provider, events, j, secret, IndexOf(Versions(b, secret), a.book.pins[at].versionId).value);
  }

  /** Once a matching retry finds its version revoked, no later matching retry ever succeeds. */
  lemma RevokedPinNeverServes(provider: Provider, events: seq<Event>, i: nat, j: nat, k: nat)
    requires Lawful(provider.primitives) && i < j < k < |events|
    requires SucceedsAt(provider, events, i) && events[i].request.ResolveForUse?
    requires events[j].Called? && events[k].Called?
    requires events[j].request == events[i].request && events[k].request == events[i].request
    requires OutcomeAt(provider, events, j) == Failure(SecretRevoked)
    ensures OutcomeAt(provider, events, k) == Failure(SecretRevoked)
  {
    PinDecidesEveryRetry(provider, events, i, j);
    PinDecidesEveryRetry(provider, events, i, k);
    HistoryIsAppendOnly(provider, events, j, k, "");
    var request, m := events[i].request, OutcomeAt(provider, events, i).value.metadata;
    var row := VersionKey(request.workspaceId, request.secretId, m.versionId);
    assert RowFollows(EnvOf(provider, ""), row, TablesAt(provider, events, j).versions[row],
                      TablesAt(provider, events, k).versions[row]);
  }

  /** A fresh resolve that names no version reads the highest-numbered row, the one whose number is
      the count of rows, and fails when that row is revoked: it never falls back to an older one. */
  lemma FreshResolveReadsTheLatest(provider: Provider, events: seq<Event>, n: nat)
    requires Lawful(provider.primitives) && n < |events| && events[n].Called?
    requires events[n].request.ResolveForUse? && events[n].request.version.None?
    requires CorrelationKey(events[n].request.workspaceId, events[n].request.correlationId)
             !in TablesAt(provider, events, n).book.pins
    ensures var request, versions := events[n].request, TablesAt(provider, events, n).versions;
            var rows := RowsOf(versions, SecretKey(request.workspaceId, request.secretId));
            if rows == {} then OutcomeAt(provider, events, n) == Failure(Missing)
            else exists k ::
              && k in rows && versions[k].versionNumber == |rows|
              && OutcomeAt(provider, events, n)
                 == ReadForUse(EnvOf(provider, events[n].keyVersion), versions, k, request.intent)
              && (versions[k].status == StatusText(Revoked) ==>
                    OutcomeAt(provider, events, n) == Failure(Error.SecretRevoked))
  {
    hide TablesAt, VaultAt, OutcomeAt, VaultHolds, SecretsHold, Represents, MetadataFromRow, DecryptRow, IndexOf, Label;
    var env, request := EnvOf(provider, events[n].keyVersion), events[n].request;
    var db, v := TablesAt(provider, events, n), VaultAt(provider, events, n);
    var secret := SecretKey(request.workspaceId, request.secretId);
    var vs, rows := Versions(v, secret), RowsOf(db.versions, secret);
    RunRefines(provider, events, n);
    VaultAlwaysHolds(provider, events, n);
    VaultHasSecrets(provider.primitives, provider.key, v);
    OutcomeRefines(provider, events, n);
    SameBook(provider, events, n);
    AllRowsMatch(env, db, v, secret);
    AscendingOrders(db.versions, rows);
    assert |rows| == |vs|;
    if vs != [] {
      var k := KeyOf(vs[|vs| - 1].metadata);
      VersionPlaced(env, db, v, secret, |vs| - 1);
      UseMatches(env, db, v, secret, |vs| - 1, request.intent);
      RowRevokedIsStatus(provider, events, n, secret, |vs| - 1);
      assert k in rows && db.versions[k].versionNumber == |rows|;
    }
  }

  // ----- Generation -------------------------------------------------------------------------

  /** The identity a generation record and version 1 of its secret describe. */
  function IdentityOf(v: Vault, at: CorrelationKey, g: Generation, replayed: bool): GeneratedKey
    requires Versions(v, SecretKey(at.workspaceId, g.secretId)) != []
  {
    GeneratedKey(Versions(v, SecretKey(at.workspaceId, g.secretId))[0].metadata, g.secretReference, g.purpose, g.issuer,
                 at.correlationId, g.keyId, g.algorithm, g.publicPem, replayed)
  }

  ghost predicate GeneratedFor(request: Request, g: Generation)
    requires request.Generate?
  {
    && g.secretId == request.secretId && g.secretReference == request.secretReference
    && g.purpose == request.purpose && g.issuer == request.issuer && g.callerSubject == request.callerSubject
  }

  lemma GenerateRecords(env: Env, draw: Draw, v: Vault, request: Request)
    requires request.Generate? && Lawful(env.primitives) && VaultHolds(env.primitives, env.master.key, v)
    requires Perform(env, draw, request, v).1.Success?
    ensures var (after, outcome) := Perform(env, draw, request, v);
            var at := CorrelationKey(request.workspaceId, request.correlationId);
            && IntentFor(request.purpose) == Some(request.intent)
            && at in after.book.generations && GeneratedFor(request, after.book.generations[at])
            && Versions(after, SecretKey(request.workspaceId, request.secretId)) != []
            && outcome.value.Generated?
            && outcome.value.key
               == IdentityOf(after, at, after.book.generations[at], at in v.book.generations)
            && outcome.value.key.metadata.status == Active
  {
    hide VaultHolds, IntentFor, FamilyLabels, LabelsClean, DelegationKeyId;
    var at := CorrelationKey(request.workspaceId, request.correlationId);
    if at in v.book.generations {
      VaultHasGeneration(env.primitives, env.master.key, v, at);
    }
  }

  /** What version 1 of a generated secret can become, and what a retry then finds. */
  lemma GenerateAgain(env: Env, draw: Draw, a: Vault, b: Vault, request: Request)
    requires request.Generate? && Grows(a, b)
    requires var at := CorrelationKey(request.workspaceId, request.correlationId);
             && at in a.book.generations
             && var g := a.book.generations[at];
             && GenerationHolds(env.primitives, a, at, g)
             && IdentityOf(a, at, g, true).metadata.status == Active
    ensures var at := CorrelationKey(request.workspaceId, request.correlationId);
            var g := a.book.generations[at];
            var vs := Versions(b, SecretKey(at.workspaceId, g.secretId));
            && vs != []
            && Perform(env, draw, request, b).1
               == if IntentFor(request.purpose) != Some(request.intent) then Failure(MetadataInvalid)
                  else if !GeneratedFor(request, g) then Failure(GenerationConflict)
                  else if vs[0].metadata.status == Revoked then Failure(SecretRevoked)
                  else if draw.eventId in b.book.audit then Failure(AuditUnavailable)
                  else Success(Generated(IdentityOf(a, at, g, true)))
  {
    var at := CorrelationKey(request.workspaceId, request.correlationId);
    var g := a.book.generations[at];
    var secret := SecretKey(at.workspaceId, g.secretId);
    assert b.book.generations[at] == g;
    assert HistoryGrows(a.secrets[secret], b.secrets[secret]);
    assert VersionFollows(a.secrets[secret][0], b.secrets[secret][0]);
  }

  /** A successful generation decides every later generation under its correlation: other semantics
      conflict; an exact retry returns the first public identity, even after rotation, unless version
      1 is revoked or its own audit row cannot be written. */
  lemma GenerationDecidesEveryRetry(provider: Provider, events: seq<Event>, i: nat, j: nat)
    requires Lawful(provider.primitives) && i < j < |events|
    requires SucceedsAt(provider, events, i) && events[i].request.Generate?
    requires events[j].Called? && events[j].request.Generate?
    requires var a, b := events[i].request, events[j].request;
             a.workspaceId == b.workspaceId && a.correlationId == b.correlationId
    ensures var a, b := events[i].request, events[j].request;
            var first := OutcomeAt(provider, events, i);
            var db := TablesAt(provider, events, j);
            && first.value.Generated?
            && OutcomeAt(provider, events, j)
               == if IntentFor(b.purpose) != Some(b.intent) then Failure(MetadataInvalid)
                  else if b.secretId != a.secretId || b.secretReference != a.secretReference || b.purpose != a.purpose
                          || b.issuer != a.issuer || b.callerSubject != a.callerSubject then
                    Failure(GenerationConflict)
                  else if RowRevoked(db, a.workspaceId, a.secretId, first.value.key.metadata.versionId) then
                    Failure(SecretRevoked)
                  else if events[j].draw.eventId in db.book.audit then Failure(AuditUnavailable)
                  else Success(Generated(first.value.key.(replayed := true)))
  {
    hide VaultHolds, SecretsHold, OutcomeAt, TablesAt, VaultAt, Represents, IntentFor, RowRevoked, Perform;
    Between(provider, events, i, j);
    OutcomeRefines(provider, events, i);
    OutcomeRefines(provider, events, j);
    VaultAlwaysHolds(provider, events, i);
    SameBook(provider, events, j);
    var a, b := VaultAt(provider, events, i + 1), VaultAt(provider, events, j);
    var env := EnvOf(provider, events[i].keyVersion);
    var request := events[i].request;
    GenerateRecords(env, events[i].draw, VaultAt(provider, events, i), request);
    var at := CorrelationKey(request.workspaceId, request.correlationId);
    VaultHasGeneration(provider.primitives, provider.key, a, at);
    GenerateAgain(EnvOf(provider, events[j].keyVersion), events[j].draw, a, b, events[j].request);
    var secret := SecretKey(request.workspaceId, request.secretId);
    assert HistoryGrows(a.secrets[secret], b.secrets[secret]);
    assert VersionFollows(a.secrets[secret][0], b.secrets[secret][0]);
    RowRevokedIsStatus(provider, events, j, secret, 0);
  }

  /** In every reachable state each generation record is the only one of its secret and names
      version 1: its labels are the family's four, and its plaintext derives the recorded identity. */
  lemma GenerationIdentity(provider: Provider, events: seq<Event>, n: nat, at: CorrelationKey, keyVersion: string)
    requires Lawful(provider.primitives) && n <= |events|
    requires at in TablesAt(provider, events, n).book.generations
    ensures var db := TablesAt(provider, events, n);
            var g := db.book.generations[at];
            var k := VersionKey(at.workspaceId, g.secretId, g.versionId);
            && k in db.versions && db.versions[k].versionNumber == 1
            && GenerationsUnique(db.book.generations)
            && IntentFor(g.purpose).Some?
            && var m := MetadataFromRow(k, db.versions[k]);
            && m.Some? && m.value.labels == FamilyLabels(IntentFor(g.purpose).value, g.purpose, g.issuer, g.keyId)
            && var pem := DecryptRow(EnvOf(provider, keyVersion), k, db.versions[k]);
            && pem.Success? && MaterialMatches(provider.primitives, pem.value, g.publicPem, g.keyId)
  {
    hide VaultHolds, SecretsHold, TablesAt, VaultAt, Represents, IntentFor, MetadataFromRow, DecryptRow, FamilyLabels;
    var db, v := TablesAt(provider, events, n), VaultAt(provider, events, n);
    RunRefines(provider, events, n);
    VaultAlwaysHolds(provider, events, n);
    SameBook(provider, events, n);
    VaultHasSecrets(provider.primitives, provider.key, v);
    var g := db.book.generations[at];
    VaultHasGeneration(provider.primitives, provider.key, v, at);
    var secret := SecretKey(at.workspaceId, g.secretId);
    VersionPlaced(EnvOf(provider, keyVersion), db, v, secret, 0);
    VersionReads(EnvOf(provider, keyVersion), db, v, secret, 0);
  }

  // ----- Exact-version revocation -----------------------------------------------------------

  lemma RevokeRecords(env: Env, draw: Draw, v: Vault, request: Request)
    requires request.RevokeVersion? && VaultHolds(env.primitives, env.master.key, v)
    requires Perform(env, draw, request, v).1.Success?
    ensures var (after, outcome) := Perform(env, draw, request, v);
            var at := CorrelationKey(request.workspaceId, request.correlationId);
            var vs := Versions(after, SecretKey(request.workspaceId, request.secretId));
            && at in after.book.revocations
            && var r := after.book.revocations[at];
            && r.secretId == request.secretId && r.versionId == request.versionId
            && r.versionNumber == request.versionNumber && r.callerSubject == request.callerSubject
            && 1 <= request.versionNumber <= |vs|
            && vs[request.versionNumber - 1].metadata.status == Revoked
            && outcome == Success(Stored(vs[request.versionNumber - 1].metadata))
  {
    hide VaultHolds, IndexOf, Label, VersionRevocationRecorded;
    var at := CorrelationKey(request.workspaceId, request.correlationId);
    if at in v.book.revocations {
      VaultHasRevocation(env.primitives, env.master.key, v, at);
    }
  }

  lemma RevokeAgain(env: Env, draw: Draw, a: Vault, b: Vault, request: Request)
    requires request.RevokeVersion? && Grows(a, b)
    requires var at := CorrelationKey(request.workspaceId, request.correlationId);
             at in a.book.revocations && RevocationHolds(a, at, a.book.revocations[at])
    ensures var at := CorrelationKey(request.workspaceId, request.correlationId);
            var r := a.book.revocations[at];
            Perform(env, draw, request, b).1
            == if r.secretId != request.secretId || r.versionId != request.versionId
                  || r.versionNumber != request.versionNumber || r.callerSubject != request.callerSubject then
                 Failure(RevocationConflict)
               else if draw.eventId in b.book.audit then Failure(AuditUnavailable)
               else Success(Stored(Versions(a, SecretKey(at.workspaceId, r.secretId))[r.versionNumber - 1].metadata))
  {
    var at := CorrelationKey(request.workspaceId, request.correlationId);
    var r := a.book.revocations[at];
    var secret := SecretKey(at.workspaceId, r.secretId);
    assert b.book.revocations[at] == r;
    assert HistoryGrows(a.secrets[secret], b.secrets[secret]);
    assert VersionFollows(a.secrets[secret][r.versionNumber - 1], b.secrets[secret][r.versionNumber - 1]);
  }

  lemma RevokeTwice(first: Env, draw: Draw, v: Vault, request: Request, again: Env, redraw: Draw, b: Vault,
                    retry: Request)
    requires request.RevokeVersion? && retry.RevokeVersion? && Lawful(first.primitives)
    requires request.workspaceId == retry.workspaceId && request.correlationId == retry.correlationId
    requires VaultHolds(first.primitives, first.master.key, v) && Perform(first, draw, request, v).1.Success?
    requires Grows(Perform(first, draw, request, v).0, b)
    ensures Perform(again, redraw, retry, b).1
            == if retry.secretId != request.secretId || retry.versionId != request.versionId
                  || retry.versionNumber != request.versionNumber || retry.callerSubject != request.callerSubject then
                 Failure(RevocationConflict)
               else if redraw.eventId in b.book.audit then Failure(AuditUnavailable)
               else Perform(first, draw, request, v).1
  {
    hide VaultHolds, Grows, Perform;
    var a := Perform(first, draw, request, v).0;
    PerformKeeps(first, draw, request, v);
    RevokeRecords(first, draw, v, request);
    var at := CorrelationKey(request.workspaceId, request.correlationId);
    VaultHasRevocation(first.primitives, first.master.key, a, at);
    RevokeAgain(again, redraw, a, b, retry);
  }

  /** A successful exact-version revocation decides every later one under its correlation: another
      target or actor conflicts, and an exact retry returns equal metadata despite rotations and
      whole-reference revocations, unless its own audit row cannot be written. */
  lemma RevocationDecidesEveryRetry(provider: Provider, events: seq<Event>, i: nat, j: nat)
    requires Lawful(provider.primitives) && i < j < |events|
    requires SucceedsAt(provider, events, i) && events[i].request.RevokeVersion?
    requires events[j].Called? && events[j].request.RevokeVersion?
    requires var a, b := events[i].request, events[j].request;
             a.workspaceId == b.workspaceId && a.correlationId == b.correlationId
    ensures var a, b := events[i].request, events[j].request;
            OutcomeAt(provider, events, j)
            == if b.secretId != a.secretId || b.versionId != a.versionId || b.versionNumber != a.versionNumber
                  || b.callerSubject != a.callerSubject then
                 Failure(RevocationConflict)
               else if events[j].draw.eventId in TablesAt(provider, events, j).book.audit then Failure(AuditUnavailable)
               else OutcomeAt(provider, events, i)
  {
    Between(provider, events, i, j);
    OutcomeRefines(provider, events, i);
    OutcomeRefines(provider, events, j);
    VaultAlwaysHolds(provider, events, i);
    SameBook(provider, events, j);
    RevokeTwice(EnvOf(provider, events[i].keyVersion), events[i].draw, VaultAt(provider, events, i), events[i].request,
                EnvOf(provider, events[j].keyVersion), events[j].draw, VaultAt(provider, events, j), events[j].request);
  }

  lemma RevocationRow(env: Env, db: Db, v: Vault, at: CorrelationKey, r: Revocation)
    requires SecretsHold(env.primitives, env.master.key, v) && Represents(env.master.key, db, v)
    requires RevocationHolds(v, at, r)
    ensures var k := VersionKey(at.workspaceId, r.secretId, r.versionId);
            && k in db.versions && db.versions[k].versionNumber == r.versionNumber
            && db.versions[k].status == StatusText(Revoked) && db.versions[k].revokedAt == Some(r.revokedAt)
  {
    hide SecretsHold, Aad, DumpLabels;
    var secret := SecretKey(at.workspaceId, r.secretId);
    VersionPlaced(env, db, v, secret, r.versionNumber - 1);
    assert RowStored(env.master.key, db, v.secrets[secret][r.versionNumber - 1]);
  }

  /** In every reachable state each revocation record names a revoked row with the recorded number
      and time, so replay never finds a missing row or a row that disagrees. */
  lemma RevocationMatchesRow(provider: Provider, events: seq<Event>, n: nat, at: CorrelationKey)
    requires Lawful(provider.primitives) && n <= |events|
    requires at in TablesAt(provider, events, n).book.revocations
    ensures var db := TablesAt(provider, events, n);
            var r := db.book.revocations[at];
            var k := VersionKey(at.workspaceId, r.secretId, r.versionId);
            && RevocationsUnique(db.book.revocations)
            && k in db.versions && db.versions[k].versionNumber == r.versionNumber
            && db.versions[k].status == StatusText(Revoked) && db.versions[k].revokedAt == Some(r.revokedAt)
  {
    hide Step, VaultStep, VaultHolds, SecretsHold, RevocationHolds, RowNamed, RowStored;
    var db, v := TablesAt(provider, events, n), VaultAt(provider, events, n);
    RunRefines(provider, events, n);
    VaultAlwaysHolds(provider, events, n);
    VaultHasSecrets(provider.primitives, provider.key, v);
    VaultHasRevocation(provider.primitives, provider.key, v, at);
    RevocationRow(EnvOf(provider, ""), db, v, at, db.book.revocations[at]);
  }
}
