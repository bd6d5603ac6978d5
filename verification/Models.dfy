/** The provider's values: metadata, results, errors, and the rows of its five tables. */
module Models {
  import opened Wrappers
  import opened JsonObjects

  newtype Byte = b: int | 0 <= b < 256
  type Bytes = seq<Byte>

  datatype Status = Active | Revoked

  function StatusText(status: Status): string
  {
    match status
    case Active => "active"
    case Revoked => "revoked"
  }

  function ParseStatus(text: string): (r: Option<Status>)
    ensures forall s :: r == Some(s) <==> text == StatusText(s)
  {
    assert StatusText(Active)[0] != StatusText(Revoked)[0];
    if text == "active" then Some(Active) else if text == "revoked" then Some(Revoked) else None
  }

  datatype Metadata = Metadata(
    workspaceId: string,
    secretId: string,
    versionId: string,
    versionNumber: int,
    status: Status,
    algorithm: string,
    keyFingerprint: string,
    keyVersion: string,
    labels: Labels,
    createdAt: string,
    revokedAt: Option<string>)

  function Label(labels: Labels, name: string): Option<string>
  {
    if name in labels then Some(labels[name]) else None
  }

  datatype GeneratedKey = GeneratedKey(
    metadata: Metadata,
    secretReference: string,
    purpose: string,
    issuer: string,
    correlationId: string,
    keyId: string,
    algorithm: string,
    publicPem: string,
    replayed: bool)

  /** The store's exceptions. `IntegrityViolation` is a constraint error no operation translates;
      `UnreadableRow` is the `ValueError` of a row whose status or labels do not decode; `StorageFailure`
      is a busy timeout, a disk error or a failed commit. */
  datatype Error =
    | Missing
    | AlreadyExists
    | ResolutionConflict
    | RevocationConflict
    | GenerationConflict
    | IntentMismatch
    | SecretRevoked
    | Tampered
    | MetadataInvalid
    | AuditUnavailable
    | IntegrityViolation
    | UnreadableRow
    | StorageFailure

  datatype Reply =
    | Stored(metadata: Metadata)
    | RevokedAll(all: seq<Metadata>)
    | Resolved(metadata: Metadata, value: Bytes)
    | Generated(key: GeneratedKey)
    | Appended

  type Outcome = Result<Reply, Error>

  const MAX_LABELS := 16
  const MAX_LABEL_KEY_CHARS := 64
  const MAX_LABEL_VALUE_CHARS := 256

  predicate LabelBounded(key: string, value: string) {
    0 < |key| <= MAX_LABEL_KEY_CHARS && |value| <= MAX_LABEL_VALUE_CHARS
  }

  /** What `_clean_labels` accepts; it returns accepted labels unchanged. */
  predicate LabelsClean(labels: Labels) {
    |labels| <= MAX_LABELS && forall k :: k in labels ==> LabelBounded(k, labels[k])
  }

  // ----- Rows -------------------------------------------------------------------------------

  datatype SecretKey = SecretKey(workspaceId: string, secretId: string)
  datatype VersionKey = VersionKey(workspaceId: string, secretId: string, versionId: string)
  datatype CorrelationKey = CorrelationKey(workspaceId: string, correlationId: string)

  function SecretOf(k: VersionKey): SecretKey {
    SecretKey(k.workspaceId, k.secretId)
  }

  datatype Pin = Pin(
    secretId: string, intent: string, callerSubject: string, versionId: string, selectedAt: string)

  datatype Generation = Generation(
    secretId: string, secretReference: string, purpose: string, issuer: string, callerSubject: string,
    versionId: string, keyId: string, algorithm: string, publicPem: string, generatedAt: string)

  datatype Revocation = Revocation(
    secretId: string, versionId: string, versionNumber: int, callerSubject: string, revokedAt: string)

  /** The audit codes, each with the outcome it is recorded with. `secret-revoked` is recorded for every
      version of a revoked reference and, without a version, for a refused request; these are two here. */
  datatype AuditCode =
    | DelegationKeyGenerated
    | DelegationKeyGenerationReplayed
    | SecretVersionRevoked
    | SecretVersionRevocationReplayed
    | SecretStored
    | SecretRotated
    | SecretResolved
    | SecretReferenceRevoked
    | MetadataRead
    | RejectedRequest(code: string)

  /** An audit row without its primary key, the event id. */
  datatype AuditRecord = AuditRecord(
    providerId: string, workspaceId: string, secretId: string, versionId: Option<string>,
    intent: Option<string>, callerSubject: string, correlationId: string, code: AuditCode, occurredAt: string)

  /** The tables beside the version table. */
  datatype Book = Book(
    pins: map<CorrelationKey, Pin>,
    generations: map<CorrelationKey, Generation>,
    revocations: map<CorrelationKey, Revocation>,
    audit: map<string, AuditRecord>)

  // ----- Calls ------------------------------------------------------------------------------

  datatype Request =
    | Create(workspaceId: string, secretId: string, value: Bytes, labels: Labels)
    | Rotate(workspaceId: string, secretId: string, value: Bytes, labels: Labels, expectedIntent: Option<string>)
    | RevokeSecret(workspaceId: string, secretId: string)
    | RevokeVersion(workspaceId: string, secretId: string, versionId: string, versionNumber: int,
                    callerSubject: string, correlationId: string, providerId: string)
    | ResolveForUse(workspaceId: string, secretId: string, intent: string, callerSubject: string,
                    correlationId: string, version: Option<string>)
    | Generate(workspaceId: string, secretId: string, secretReference: string, purpose: string, intent: string,
               issuer: string, callerSubject: string, correlationId: string, providerId: string)
    | ReadMetadata(workspaceId: string, secretId: string, version: Option<string>)
    | Resolve(workspaceId: string, secretId: string, version: Option<string>)
    | AppendAudit(record: AuditRecord)

  /** What one call draws from its environment: the clock, `uuid4`, `os.urandom` and the key generator. */
  datatype Draw = Draw(
    now: string,
    versionId: string,
    nonce: nat -> Bytes,
    seed: Bytes,
    eventId: string,
    auditedAt: string)
}
