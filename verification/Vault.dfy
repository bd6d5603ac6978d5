/** The store as its documentation describes it: each secret is a sequence of plain versions,
    beside the correlation tables and the audit. No rows, no ciphertext, no constraint to break. */
module Vault {
  import opened Wrappers
  import opened JsonObjects
  import opened Models
  import opened Crypto
  import opened Signing
  import opened StoreSpec

  datatype Version = Version(metadata: Metadata, value: Bytes)

  datatype Vault = Vault(secrets: map<SecretKey, seq<Version>>, book: Book)

  const EMPTY_VAULT := Vault(map[], Book(map[], map[], map[], map[]))

  function Versions(v: Vault, secret: SecretKey): seq<Version>
  {
    if secret in v.secrets then v.secrets[secret] else []
  }

  // ----- Finding a version ------------------------------------------------------------------

  function IndexOf(vs: seq<Version>, versionId: string): (r: Option<nat>)
    ensures r.Some? ==> r.value < |vs| && vs[r.value].metadata.versionId == versionId
    ensures r.None? <==> forall i :: 0 <= i < |vs| ==> vs[i].metadata.versionId != versionId
  {
    if vs == [] then None
    else if vs[|vs| - 1].metadata.versionId == versionId then Some(|vs| - 1)
    else IndexOf(vs[..|vs| - 1], versionId)
  }

  /** No version id names the last version. */
  function Select(vs: seq<Version>, version: Option<string>): (r: Option<nat>)
    ensures r.Some? ==> r.value < |vs|
  {
    match version
    case None => if vs == [] then None else Some(|vs| - 1)
    case Some(id) => IndexOf(vs, id)
  }

  // ----- Operations -------------------------------------------------------------------------

  function Extended(v: Vault, secret: SecretKey, version: Version): Vault
  {
    v.(secrets := v.secrets[secret := Versions(v, secret) + [version]])
  }

  function RevokedVersion(version: Version, now: string): Version
  {
    if version.metadata.status == Revoked then version
    else version.(metadata := AsRevoked(version.metadata, now))
  }

  function AllRevoked(vs: seq<Version>, now: string): seq<Version>
  {
    seq(|vs|, i requires 0 <= i < |vs| => RevokedVersion(vs[i], now))
  }

  function MetadataOf(vs: seq<Version>): seq<Metadata>
  {
    seq(|vs|, i requires 0 <= i < |vs| => vs[i].metadata)
  }

  /** An audit row joins the call's effects, or its taken event id undoes them. */
  function Audited(before: Vault, after: Vault, draw: Draw, record: AuditRecord, reply: Reply): (Vault, Outcome)
  {
    if draw.eventId in after.book.audit then (before, Failure(AuditUnavailable))
    else
      (after.(book := after.book.(audit := after.book.audit[draw.eventId := record])), Success(reply))
  }

  function CreateSecret(env: Env, draw: Draw, v: Vault, secret: SecretKey, value: Bytes, labels: Labels)
    : (Vault, Outcome)
  {
    if !LabelsClean(labels) then (v, Failure(MetadataInvalid))
    else if secret in v.secrets then (v, Failure(AlreadyExists))
    else
      var m := FreshMetadata(env, draw, secret.workspaceId, secret.secretId, labels, 1);
      (Extended(v, secret, Version(m, value)), Success(Stored(m)))
  }

  function RotateSecret(env: Env, draw: Draw, v: Vault, secret: SecretKey, value: Bytes, labels: Labels,
                        expectedIntent: Option<string>): (Vault, Outcome)
  {
    var vs := Versions(v, secret);
    if vs == [] then (v, Failure(Missing))
    else if expectedIntent.Some? && Label(vs[|vs| - 1].metadata.labels, "intent") != expectedIntent then
      (v, Failure(IntentMismatch))
    else if !LabelsClean(labels) then (v, Failure(MetadataInvalid))
    else if IndexOf(vs, draw.versionId).Some? then (v, Failure(AlreadyExists))
    else
      var m := FreshMetadata(env, draw, secret.workspaceId, secret.secretId, labels, |vs| + 1);
      (Extended(v, secret, Version(m, value)), Success(Stored(m)))
  }

  function RevokeWhole(draw: Draw, v: Vault, secret: SecretKey): (Vault, Outcome)
  {
    var vs := Versions(v, secret);
    if vs == [] then (v, Failure(Missing))
    else
      var revoked := AllRevoked(vs, draw.now);
      (v.(secrets := v.secrets[secret := revoked]), Success(RevokedAll(MetadataOf(revoked))))
  }

  /** One version revoked, and its revocation recorded under the correlation. */
  function VersionRetired(v: Vault, secret: SecretKey, i: nat, at: CorrelationKey, callerSubject: string, now: string)
    : Vault
    requires i < |Versions(v, secret)|
  {
    var vs := Versions(v, secret);
    var record := Revocation(secret.secretId, vs[i].metadata.versionId, i + 1, callerSubject, now);
    Vault(v.secrets[secret := vs[i := RevokedVersion(vs[i], now)]],
          v.book.(revocations := v.book.revocations[at := record]))
  }

  function RevokeOne(draw: Draw, v: Vault, secret: SecretKey, versionId: string, versionNumber: int,
                     callerSubject: string, correlationId: string, providerId: string): (Vault, Outcome)
  {
    var at := CorrelationKey(secret.workspaceId, correlationId);
    var vs := Versions(v, secret);
    if at in v.book.revocations then
      var r := v.book.revocations[at];
      if r.secretId != secret.secretId || r.versionId != versionId || r.versionNumber != versionNumber
         || r.callerSubject != callerSubject || !(1 <= versionNumber <= |vs|) then
        (v, Failure(RevocationConflict))
      else
        var m := vs[versionNumber - 1].metadata;
        Audited(v, v, draw,
                AuditOf(draw, providerId, secret.workspaceId, secret.secretId, Some(versionId),
                        Label(m.labels, "intent"), callerSubject, correlationId, SecretVersionRevocationReplayed),
                Stored(m))
    else if Tables.VersionRevocationRecorded(v.book.revocations, secret.workspaceId, secret.secretId, versionId) then
      (v, Failure(RevocationConflict))
    else
      match IndexOf(vs, versionId)
      case None => (v, Failure(Missing))
      case Some(i) =>
        var m := vs[i].metadata;
        if i + 1 != versionNumber then (v, Failure(RevocationConflict))
        else if m.status == Revoked then (v, Failure(SecretRevoked))
        else
          Audited(v, VersionRetired(v, secret, i, at, callerSubject, draw.now), draw,
                  AuditOf(draw, providerId, secret.workspaceId, secret.secretId, Some(versionId),
                          Label(m.labels, "intent"), callerSubject, correlationId, SecretVersionRevoked),
                  Stored(AsRevoked(m, draw.now)))
  }

  /** What a version yields to a caller who resolves it for `intent`. */
  function UseOf(version: Version, intent: string): Outcome
  {
    if version.metadata.status == Revoked then Failure(SecretRevoked)
    else if Label(version.metadata.labels, "intent") != Some(intent) then Failure(IntentMismatch)
    else Success(Resolved(version.metadata, version.value))
  }

  function ResolvePinned(draw: Draw, v: Vault, secret: SecretKey, intent: string, callerSubject: string,
                         correlationId: string, version: Option<string>): (Vault, Outcome)
  {
    var at := CorrelationKey(secret.workspaceId, correlationId);
    var vs := Versions(v, secret);
    if at in v.book.pins then
      var pin := v.book.pins[at];
      if pin.secretId != secret.secretId || pin.intent != intent || pin.callerSubject != callerSubject
         || (version.Some? && version.value != pin.versionId) then
        (v, Failure(ResolutionConflict))
      else
        match IndexOf(vs, pin.versionId)
        case None => (v, Failure(Missing))
        case Some(i) => (v, UseOf(vs[i], intent))
    else
      match Select(vs, version)
      case None => (v, Failure(Missing))
      case Some(i) =>
        var use := UseOf(vs[i], intent);
        if use.Failure? then (v, use)
        else
          var pin := Pin(secret.secretId, intent, callerSubject, vs[i].metadata.versionId, draw.now);
          (v.(book := v.book.(pins := v.book.pins[at := pin])), use)
  }

  function GeneratedMetadata(env: Env, draw: Draw, secret: SecretKey, purpose: string, intent: string, issuer: string)
    : Metadata
  {
    var keyId := DelegationKeyId(env.primitives, env.primitives.publicPem(draw.seed));
    FreshMetadata(env, draw, secret.workspaceId, secret.secretId, FamilyLabels(intent, purpose, issuer, keyId), 1)
  }

  function GenerationOf(env: Env, draw: Draw, secret: SecretKey, secretReference: string, purpose: string,
                        issuer: string, callerSubject: string): Generation
  {
    var publicPem := env.primitives.publicPem(draw.seed);
    Generation(secret.secretId, secretReference, purpose, issuer, callerSubject, draw.versionId,
               DelegationKeyId(env.primitives, publicPem), DELEGATION_KEY_ALGORITHM, publicPem, draw.now)
  }

  /** The private key stored as version 1, and its generation recorded under the correlation. */
  function KeyStored(env: Env, draw: Draw, v: Vault, secret: SecretKey, m: Metadata, at: CorrelationKey, g: Generation)
    : Vault
  {
    Extended(v, secret, Version(m, env.primitives.privatePem(draw.seed))).(
      book := v.book.(generations := v.book.generations[at := g]))
  }

  function GenerateKey(env: Env, draw: Draw, v: Vault, secret: SecretKey, secretReference: string, purpose: string,
                       intent: string, issuer: string, callerSubject: string, correlationId: string,
                       providerId: string): (Vault, Outcome)
  {
    var at := CorrelationKey(secret.workspaceId, correlationId);
    var vs := Versions(v, secret);
    if IntentFor(purpose) != Some(intent) then (v, Failure(MetadataInvalid))
    else if at in v.book.generations then
      var g := v.book.generations[at];
      if g.secretId != secret.secretId || g.secretReference != secretReference || g.purpose != purpose
         || g.issuer != issuer || g.callerSubject != callerSubject then
        (v, Failure(GenerationConflict))
      else if vs == [] then (v, Failure(Missing))
      else if vs[0].metadata.status == Revoked then (v, Failure(SecretRevoked))
      else
        var key := GeneratedKey(vs[0].metadata, secretReference, purpose, issuer, correlationId, g.keyId, g.algorithm,
                                g.publicPem, true);
        Audited(v, v, draw,
                AuditOf(draw, providerId, secret.workspaceId, secret.secretId, Some(vs[0].metadata.versionId),
                        Some(intent), callerSubject, correlationId, DelegationKeyGenerationReplayed),
                Generated(key))
    else
      var m := GeneratedMetadata(env, draw, secret, purpose, intent, issuer);
      var g := GenerationOf(env, draw, secret, secretReference, purpose, issuer, callerSubject);
      if !LabelsClean(m.labels) then (v, Failure(MetadataInvalid))
      else if vs != [] then (v, Failure(AlreadyExists))
      else
        Audited(v, KeyStored(env, draw, v, secret, m, at, g), draw,
                AuditOf(draw, providerId, secret.workspaceId, secret.secretId, Some(m.versionId), Some(intent),
                        callerSubject, correlationId, DelegationKeyGenerated),
                Generated(GeneratedKey(m, secretReference, purpose, issuer, correlationId, g.keyId, g.algorithm,
                                       g.publicPem, false)))
  }

  function Perform(env: Env, draw: Draw, request: Request, v: Vault): (Vault, Outcome)
  {
    match request
    case Create(w, s, value, labels) => CreateSecret(env, draw, v, SecretKey(w, s), value, labels)
    case Rotate(w, s, value, labels, expected) => RotateSecret(env, draw, v, SecretKey(w, s), value, labels, expected)
    case RevokeSecret(w, s) => RevokeWhole(draw, v, SecretKey(w, s))
    case RevokeVersion(w, s, id, number, caller, correlation, provider) =>
      RevokeOne(draw, v, SecretKey(w, s), id, number, caller, correlation, provider)
    case ResolveForUse(w, s, intent, caller, correlation, version) =>
      ResolvePinned(draw, v, SecretKey(w, s), intent, caller, correlation, version)
    case Generate(w, s, reference, purpose, intent, issuer, caller, correlation, provider) =>
      GenerateKey(env, draw, v, SecretKey(w, s), reference, purpose, intent, issuer, caller, correlation, provider)
    case ReadMetadata(w, s, version) =>
      var vs := Versions(v, SecretKey(w, s));
      (match Select(vs, version)
       case None => (v, Failure(Missing))
       case Some(i) => (v, Success(Stored(vs[i].metadata))))
    case Resolve(w, s, version) =>
      var vs := Versions(v, SecretKey(w, s));
      (match Select(vs, version)
       case None => (v, Failure(Missing))
       case Some(i) =>
         if vs[i].metadata.status == Revoked then (v, Failure(SecretRevoked))
         else (v, Success(Resolved(vs[i].metadata, vs[i].value))))
    case AppendAudit(record) => Audited(v, v, draw, record, Appended)
  }

  // ----- The invariant ----------------------------------------------------------------------

  /** Version `i` of a secret: number `i + 1`, this provider's key, an id no sibling has. */
  ghost predicate VersionHolds(p: Primitives, key: Bytes, secret: SecretKey, vs: seq<Version>, i: nat)
    requires i < |vs|
  {
    var m := vs[i].metadata;
    && m.workspaceId == secret.workspaceId && m.secretId == secret.secretId
    && m.versionNumber == i + 1
    && m.algorithm == ALGORITHM && m.keyFingerprint == p.fingerprint(key)
    && (m.status == Active <==> m.revokedAt.None?)
    && IndexOf(vs, m.versionId) == Some(i)
  }

  ghost predicate SecretHolds(p: Primitives, key: Bytes, secret: SecretKey, vs: seq<Version>)
  {
    vs != [] && forall i: nat | i < |vs| :: VersionHolds(p, key, secret, vs, i)
  }

  ghost predicate PinHolds(v: Vault, at: CorrelationKey, pin: Pin)
  {
    var vs := Versions(v, SecretKey(at.workspaceId, pin.secretId));
    var i := IndexOf(vs, pin.versionId);
    i.Some? && Label(vs[i.value].metadata.labels, "intent") == Some(pin.intent)
  }

  /** A generation record names version 1: the family's exact labels, and a private key that
      derives the recorded public key and key id. */
  ghost predicate GenerationHolds(p: Primitives, v: Vault, at: CorrelationKey, g: Generation)
  {
    var vs := Versions(v, SecretKey(at.workspaceId, g.secretId));
    && vs != []
    && vs[0].metadata.versionId == g.versionId
    && IntentFor(g.purpose).Some?
    && vs[0].metadata.labels == FamilyLabels(IntentFor(g.purpose).value, g.purpose, g.issuer, g.keyId)
    && vs[0].metadata.createdAt == g.generatedAt
    && g.algorithm == DELEGATION_KEY_ALGORITHM
    && |g.publicPem| <= MAX_PUBLIC_PEM_CHARS && |g.keyId| <= MAX_KEY_ID_CHARS
    && MaterialMatches(p, vs[0].value, g.publicPem, g.keyId)
  }

  /** A revocation record names a revoked version with the recorded number and time. */
  ghost predicate RevocationHolds(v: Vault, at: CorrelationKey, r: Revocation)
  {
    var vs := Versions(v, SecretKey(at.workspaceId, r.secretId));
    && 1 <= r.versionNumber <= |vs|
    && vs[r.versionNumber - 1].metadata.versionId == r.versionId
    && vs[r.versionNumber - 1].metadata.status == Revoked
    && vs[r.versionNumber - 1].metadata.revokedAt == Some(r.revokedAt)
  }

  ghost predicate BookHolds(p: Primitives, v: Vault)
  {
    && (forall at | at in v.book.pins :: PinHolds(v, at, v.book.pins[at]))
    && (forall at | at in v.book.generations :: GenerationHolds(p, v, at, v.book.generations[at]))
    && (forall at | at in v.book.revocations :: RevocationHolds(v, at, v.book.revocations[at]))
    && Tables.GenerationsUnique(v.book.generations)
    && Tables.RevocationsUnique(v.book.revocations)
  }

  ghost predicate VaultHolds(p: Primitives, key: Bytes, v: Vault)
  {
    && (forall secret | secret in v.secrets :: SecretHolds(p, key, secret, v.secrets[secret]))
    && BookHolds(p, v)
  }
}
