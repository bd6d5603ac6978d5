/** The store's operations as plans over the tables, in the code's own order of checks. */
module StoreSpec {
  import opened Wrappers
  import opened JsonObjects
  import opened Models
  import opened Crypto
  import opened Signing
  import opened Tables

  // ----- Rows and metadata ------------------------------------------------------------------

  function FreshMetadata(env: Env, draw: Draw, workspaceId: string, secretId: string, labels: Labels, number: int)
    : Metadata
  {
    Metadata(workspaceId, secretId, draw.versionId, number, Active, ALGORITHM,
             env.primitives.fingerprint(env.master.key), env.master.version, labels, draw.now, None)
  }

  function KeyOf(m: Metadata): VersionKey
  {
    VersionKey(m.workspaceId, m.secretId, m.versionId)
  }

  /** The row that holds `value` under metadata `m`. */
  function SealedRow(key: Bytes, nonce: Bytes, m: Metadata, value: Bytes): VersionRow
  {
    VersionRow(m.versionNumber, StatusText(m.status), m.algorithm, m.keyFingerprint, m.keyVersion, nonce,
               Encrypt(key, nonce, value, Aad(m)), DumpLabels(m.labels), m.createdAt, m.revokedAt)
  }

  /** `_metadata_from_row`; `None` is the exception of an undecodable status or labels column. */
  function MetadataFromRow(k: VersionKey, row: VersionRow): Option<Metadata>
  {
    match (ParseStatus(row.status), LoadLabels(row.labelsJson))
    case (Some(status), Some(labels)) =>
      Some(Metadata(k.workspaceId, k.secretId, k.versionId, row.versionNumber, status, row.algorithm,
                    row.keyFingerprint, row.keyVersion, labels, row.createdAt, row.revokedAt))
    case _ => None
  }

  /** `_decrypt_row`. */
  function DecryptRow(env: Env, k: VersionKey, row: VersionRow): Result<Bytes, Error>
  {
    match MetadataFromRow(k, row)
    case None => Failure(UnreadableRow)
    case Some(m) =>
      if m.algorithm != ALGORITHM || m.keyFingerprint != env.primitives.fingerprint(env.master.key) then
        Failure(Tampered)
      else
        match Decrypt(env.master.key, row.nonce, row.ciphertext, Aad(m))
        case None => Failure(Tampered)
        case Some(value) => Success(value)
  }

  lemma SealedRowReadsBack(env: Env, nonce: Bytes, m: Metadata, value: Bytes)
    ensures var row := SealedRow(env.master.key, nonce, m, value);
            && MetadataFromRow(KeyOf(m), row) == Some(m)
            && (m.algorithm == ALGORITHM && m.keyFingerprint == env.primitives.fingerprint(env.master.key)
                ==> DecryptRow(env, KeyOf(m), row) == Success(value))
  {
    assert ParseStatus(StatusText(m.status)) == Some(m.status);
    LabelsRoundTrip(m.labels);
  }

  // ----- Selecting rows ---------------------------------------------------------------------

  function RowsOf(versions: map<VersionKey, VersionRow>, secret: SecretKey): set<VersionKey>
  {
    set k | k in versions && SecretOf(k) == secret
  }

  predicate IsLatest(versions: map<VersionKey, VersionRow>, secret: SecretKey, k: VersionKey)
  {
    && k in RowsOf(versions, secret)
    && forall other :: other in RowsOf(versions, secret) ==>
         versions[other].versionNumber <= versions[k].versionNumber
  }

  lemma LatestUnique(versions: map<VersionKey, VersionRow>, secret: SecretKey, a: VersionKey, b: VersionKey)
    requires NumbersUnique(versions) && IsLatest(versions, secret, a) && IsLatest(versions, secret, b)
    ensures a == b
  {
  }

  /** `_latest_row`. */
  ghost function LatestRow(versions: map<VersionKey, VersionRow>, secret: SecretKey): Option<VersionKey>
  {
    if k :| IsLatest(versions, secret, k) then Some(k) else None
  }

  /** `_select_row_with_connection`. */
  ghost function SelectRow(versions: map<VersionKey, VersionRow>, secret: SecretKey, version: Option<string>)
    : Option<VersionKey>
  {
    match version
    case None => LatestRow(versions, secret)
    case Some(id) =>
      var k := VersionKey(secret.workspaceId, secret.secretId, id);
      if k in versions then Some(k) else None
  }

  predicate IsFirst(versions: map<VersionKey, VersionRow>, rows: set<VersionKey>, k: VersionKey)
    requires forall r :: r in rows ==> r in versions
  {
    k in rows && forall other :: other in rows ==> versions[k].versionNumber <= versions[other].versionNumber
  }

  lemma FirstExists(versions: map<VersionKey, VersionRow>, rows: set<VersionKey>)
    requires rows != {} && forall r :: r in rows ==> r in versions
    ensures exists k :: IsFirst(versions, rows, k)
  {
    var x :| x in rows;
    if rows == {x} {
      assert IsFirst(versions, rows, x);
    } else {
      assert rows == rows - {x} + {x};
      FirstExists(versions, rows - {x});
      var y :| IsFirst(versions, rows - {x}, y);
      assert IsFirst(versions, rows, if versions[x].versionNumber <= versions[y].versionNumber then x else y);
    }
  }

  lemma FirstUnique(versions: map<VersionKey, VersionRow>, rows: set<VersionKey>, secret: SecretKey, a: VersionKey,
                    b: VersionKey)
    requires NumbersUnique(versions) && forall r :: r in rows ==> r in versions && SecretOf(r) == secret
    requires IsFirst(versions, rows, a) && IsFirst(versions, rows, b)
    ensures a == b
  {
  }

  /** `_all_rows`: the given rows in ascending version order. */
  ghost function Ascending(versions: map<VersionKey, VersionRow>, rows: set<VersionKey>): (ks: seq<VersionKey>)
    requires forall r :: r in rows ==> r in versions
    ensures forall k :: k in ks ==> k in rows
  {
    if rows == {} then [] else
      FirstExists(versions, rows);
      var k :| IsFirst(versions, rows, k);
      [k] + Ascending(versions, rows - {k})
  }

  lemma {:induction false} AscendingOrders(versions: map<VersionKey, VersionRow>, rows: set<VersionKey>)
    requires forall r :: r in rows ==> r in versions
    ensures var ks := Ascending(versions, rows);
            && |ks| == |rows| && (forall k :: k in ks <==> k in rows)
            && forall i, j :: 0 <= i < j < |ks| ==>
                 ks[i] != ks[j] && versions[ks[i]].versionNumber <= versions[ks[j]].versionNumber
  {
    if rows != {} {
      var ks := Ascending(versions, rows);
      AscendingOrders(versions, rows - {ks[0]});
      assert ks == [ks[0]] + Ascending(versions, rows - {ks[0]});
    }
  }

  // ----- Operations -------------------------------------------------------------------------

  function InsertOf(env: Env, draw: Draw, m: Metadata, value: Bytes): Statement
  {
    InsertVersion(KeyOf(m), SealedRow(env.master.key, draw.nonce(0), m, value))
  }

  /** `_insert_version`: its labels are checked before anything is written. */
  function InsertPlan(env: Env, draw: Draw, workspaceId: string, secretId: string, value: Bytes, labels: Labels,
                      number: int): Plan
  {
    if !LabelsClean(labels) then Plan([], Failure(MetadataInvalid))
    else
      var m := FreshMetadata(env, draw, workspaceId, secretId, labels, number);
      Plan([InsertOf(env, draw, m, value)], Success(Stored(m)))
  }

  function CreatePlan(env: Env, draw: Draw, workspaceId: string, secretId: string, value: Bytes, labels: Labels): Plan
  {
    InsertPlan(env, draw, workspaceId, secretId, value, labels, 1)
  }

  ghost function RotatePlan(env: Env, draw: Draw, versions: map<VersionKey, VersionRow>, workspaceId: string,
                            secretId: string, value: Bytes, labels: Labels, expectedIntent: Option<string>): Plan
  {
    match LatestRow(versions, SecretKey(workspaceId, secretId))
    case None => Plan([], Failure(Missing))
    case Some(k) =>
      match MetadataFromRow(k, versions[k])
      case None => Plan([], Failure(UnreadableRow))
      case Some(latest) =>
        if expectedIntent.Some? && Label(latest.labels, "intent") != expectedIntent then
          Plan([], Failure(IntentMismatch))
        else InsertPlan(env, draw, workspaceId, secretId, value, labels, latest.versionNumber + 1)
  }

  function AsRevoked(m: Metadata, revokedAt: string): Metadata
  {
    m.(status := Revoked, revokedAt := Some(revokedAt))
  }

  /** The update `_revoke_row` issues: same plaintext, sealed again under the revoked metadata. */
  function RevokeUpdate(env: Env, m: Metadata, nonce: Bytes, value: Bytes, revokedAt: string): Statement
  {
    UpdateVersion(KeyOf(m), StatusText(Revoked), nonce,
                  Encrypt(env.master.key, nonce, value, Aad(AsRevoked(m, revokedAt))), revokedAt)
  }

  datatype RevokeLoop = RevokeLoop(statements: seq<Statement>, outcome: Result<seq<Metadata>, Error>)

  /** The loop of `revoke_secret` over the rows from index `i` on. */
  function RevokeRows(env: Env, draw: Draw, versions: map<VersionKey, VersionRow>, ks: seq<VersionKey>, i: nat)
    : RevokeLoop
    requires i <= |ks| && forall k :: k in ks ==> k in versions
    decreases |ks| - i
  {
    if i == |ks| then RevokeLoop([], Success([]))
    else
      match MetadataFromRow(ks[i], versions[ks[i]])
      case None => RevokeLoop([], Failure(UnreadableRow))
      case Some(m) =>
        if m.status == Revoked then
          var tail := RevokeRows(env, draw, versions, ks, i + 1);
          RevokeLoop(tail.statements,
                     if tail.outcome.Failure? then tail.outcome else Success([m] + tail.outcome.value))
        else
          match DecryptRow(env, ks[i], versions[ks[i]])
          case Failure(e) => RevokeLoop([], Failure(e))
          case Success(value) =>
            var tail := RevokeRows(env, draw, versions, ks, i + 1);
            RevokeLoop([RevokeUpdate(env, m, draw.nonce(i), value, draw.now)] + tail.statements,
                       if tail.outcome.Failure? then tail.outcome
                       else Success([AsRevoked(m, draw.now)] + tail.outcome.value))
  }

  ghost function RevokeSecretPlan(env: Env, draw: Draw, versions: map<VersionKey, VersionRow>, workspaceId: string,
                                  secretId: string): Plan
  {
    var ks := Ascending(versions, RowsOf(versions, SecretKey(workspaceId, secretId)));
    if ks == [] then Plan([], Failure(Missing))
    else
      var loop := RevokeRows(env, draw, versions, ks, 0);
      Plan(loop.statements,
           if loop.outcome.Failure? then Failure(loop.outcome.error) else Success(RevokedAll(loop.outcome.value)))
  }

  function AuditOf(draw: Draw, providerId: string, workspaceId: string, secretId: string, versionId: Option<string>,
                   intent: Option<string>, callerSubject: string, correlationId: string, code: AuditCode)
    : AuditRecord
  {
    AuditRecord(providerId, workspaceId, secretId, versionId, intent, callerSubject, correlationId, code,
                draw.auditedAt)
  }

  /** The statements of a first exact-version revocation. */
  function RetirePlan(env: Env, draw: Draw, m: Metadata, value: Bytes, at: CorrelationKey, callerSubject: string,
                      providerId: string): Plan
  {
    Plan([ RevokeUpdate(env, m, draw.nonce(0), value, draw.now),
           InsertRevocation(at, Revocation(m.secretId, m.versionId, m.versionNumber, callerSubject, draw.now)),
           InsertAudit(draw.eventId,
             AuditOf(draw, providerId, m.workspaceId, m.secretId, Some(m.versionId), Label(m.labels, "intent"),
                     callerSubject, at.correlationId, SecretVersionRevoked)) ],
         Success(Stored(AsRevoked(m, draw.now))))
  }

  ghost function RevokeVersionPlan(env: Env, draw: Draw, versions: map<VersionKey, VersionRow>,
                                   revocations: map<CorrelationKey, Revocation>, workspaceId: string, secretId: string,
                                   versionId: string, versionNumber: int, callerSubject: string,
                                   correlationId: string, providerId: string): Plan
  {
    var at := CorrelationKey(workspaceId, correlationId);
    var k := VersionKey(workspaceId, secretId, versionId);
    if at in revocations then
      var existing := revocations[at];
      if existing.secretId != secretId || existing.versionId != versionId
         || existing.versionNumber != versionNumber || existing.callerSubject != callerSubject then
        Plan([], Failure(RevocationConflict))
      else if k !in versions then Plan([], Failure(Missing))
      else
        match MetadataFromRow(k, versions[k])
        case None => Plan([], Failure(UnreadableRow))
        case Some(m) =>
          if m.versionNumber != versionNumber || m.status != Revoked then Plan([], Failure(RevocationConflict))
          else
            Plan([InsertAudit(draw.eventId,
                    AuditOf(draw, providerId, workspaceId, secretId, Some(versionId), Label(m.labels, "intent"),
                            callerSubject, correlationId, SecretVersionRevocationReplayed))],
                 Success(Stored(m)))
    else if VersionRevocationRecorded(revocations, workspaceId, secretId, versionId) then
      Plan([], Failure(RevocationConflict))
    else if k !in versions then Plan([], Failure(Missing))
    else
      match MetadataFromRow(k, versions[k])
      case None => Plan([], Failure(UnreadableRow))
      case Some(m) =>
        if m.versionNumber != versionNumber then Plan([], Failure(RevocationConflict))
        else if m.status == Revoked then Plan([], Failure(SecretRevoked))
        else
          match DecryptRow(env, k, versions[k])
          case Failure(e) => Plan([], Failure(e))
          case Success(value) => RetirePlan(env, draw, m, value, at, callerSubject, providerId)
  }

  /** The read of a selected row that ends `resolve_secret_for_use`. */
  function ReadForUse(env: Env, versions: map<VersionKey, VersionRow>, k: VersionKey, intent: string): Outcome
  {
    if k !in versions then Failure(Missing)
    else
      match MetadataFromRow(k, versions[k])
      case None => Failure(UnreadableRow)
      case Some(m) =>
        if m.status == Revoked then Failure(SecretRevoked)
        else if Label(m.labels, "intent") != Some(intent) then Failure(IntentMismatch)
        else
          match DecryptRow(env, k, versions[k])
          case Failure(e) => Failure(e)
          case Success(value) => Success(Resolved(m, value))
  }

  ghost function ResolveForUsePlan(env: Env, draw: Draw, versions: map<VersionKey, VersionRow>,
                                   pins: map<CorrelationKey, Pin>, workspaceId: string, secretId: string,
                                   intent: string, callerSubject: string, correlationId: string,
                                   version: Option<string>): Plan
  {
    var at := CorrelationKey(workspaceId, correlationId);
    if at in pins then
      var selection := pins[at];
      if selection.secretId != secretId || selection.intent != intent || selection.callerSubject != callerSubject
         || (version.Some? && version.value != selection.versionId) then
        Plan([], Failure(ResolutionConflict))
      else Plan([], ReadForUse(env, versions, VersionKey(workspaceId, secretId, selection.versionId), intent))
    else
      match SelectRow(versions, SecretKey(workspaceId, secretId), version)
      case None => Plan([], Failure(Missing))
      case Some(k) =>
        match MetadataFromRow(k, versions[k])
        case None => Plan([], Failure(UnreadableRow))
        case Some(m) =>
          if m.status == Revoked then Plan([], Failure(SecretRevoked))
          else if Label(m.labels, "intent") != Some(intent) then Plan([], Failure(IntentMismatch))
          else
            Plan([InsertPin(at, Pin(secretId, intent, callerSubject, m.versionId, draw.now))],
                 ReadForUse(env, versions, VersionKey(workspaceId, secretId, m.versionId), intent))
  }

  function FamilyLabels(intent: string, purpose: string, issuer: string, keyId: string): Labels
  {
    map["intent" := intent, "purpose" := purpose, "issuer" := issuer, "key_id" := keyId]
  }

  /** `_delegation_generation_from_row`. */
  function ReadGeneration(env: Env, versions: map<VersionKey, VersionRow>, at: CorrelationKey, g: Generation,
                          expectedIntent: string): Result<GeneratedKey, Error>
  {
    var k := VersionKey(at.workspaceId, g.secretId, g.versionId);
    if k !in versions then Failure(Missing)
    else
      match MetadataFromRow(k, versions[k])
      case None => Failure(Tampered)
      case Some(m) =>
        if m.status == Revoked then Failure(SecretRevoked)
        else if |g.publicPem| > MAX_PUBLIC_PEM_CHARS || |g.keyId| > MAX_KEY_ID_CHARS then Failure(Tampered)
        else if m.labels != FamilyLabels(expectedIntent, g.purpose, g.issuer, g.keyId)
                || g.algorithm != DELEGATION_KEY_ALGORITHM then
          Failure(Tampered)
        else
          match DecryptRow(env, k, versions[k])
          case Failure(e) => Failure(e)
          case Success(privatePem) =>
            if !MaterialMatches(env.primitives, privatePem, g.publicPem, g.keyId) then Failure(Tampered)
            else
              Success(GeneratedKey(m, g.secretReference, g.purpose, g.issuer, at.correlationId, g.keyId, g.algorithm,
                                   g.publicPem, true))
  }

  ghost function GeneratePlan(env: Env, draw: Draw, versions: map<VersionKey, VersionRow>,
                              generations: map<CorrelationKey, Generation>, workspaceId: string, secretId: string,
                              secretReference: string, purpose: string, intent: string, issuer: string,
                              callerSubject: string, correlationId: string, providerId: string): Plan
  {
    var at := CorrelationKey(workspaceId, correlationId);
    if IntentFor(purpose) != Some(intent) then Plan([], Failure(MetadataInvalid))
    else if at in generations then
      var existing := generations[at];
      if existing.secretId != secretId || existing.secretReference != secretReference || existing.purpose != purpose
         || existing.issuer != issuer || existing.callerSubject != callerSubject then
        Plan([], Failure(GenerationConflict))
      else
        match ReadGeneration(env, versions, at, existing, intent)
        case Failure(e) => Plan([], Failure(e))
        case Success(key) =>
          Plan([InsertAudit(draw.eventId,
                  AuditOf(draw, providerId, workspaceId, secretId, Some(key.metadata.versionId), Some(intent),
                          callerSubject, correlationId, DelegationKeyGenerationReplayed))],
               Success(Generated(key)))
    else
      var publicPem := env.primitives.publicPem(draw.seed);
      var keyId := DelegationKeyId(env.primitives, publicPem);
      var labels := FamilyLabels(intent, purpose, issuer, keyId);
      if !LabelsClean(labels) then Plan([], Failure(MetadataInvalid))
      else
        var m := FreshMetadata(env, draw, workspaceId, secretId, labels, 1);
        Plan([ InsertOf(env, draw, m, env.primitives.privatePem(draw.seed)),
               InsertGeneration(at, Generation(secretId, secretReference, purpose, issuer, callerSubject, m.versionId,
                                               keyId, DELEGATION_KEY_ALGORITHM, publicPem, m.createdAt)),
               InsertAudit(draw.eventId,
                 AuditOf(draw, providerId, workspaceId, secretId, Some(m.versionId), Some(intent), callerSubject,
                         correlationId, DelegationKeyGenerated)) ],
             Success(Generated(GeneratedKey(m, secretReference, purpose, issuer, correlationId, keyId,
                                            DELEGATION_KEY_ALGORITHM, publicPem, false))))
  }

  ghost function ReadMetadataPlan(versions: map<VersionKey, VersionRow>, workspaceId: string, secretId: string,
                                  version: Option<string>): Plan
  {
    match SelectRow(versions, SecretKey(workspaceId, secretId), version)
    case None => Plan([], Failure(Missing))
    case Some(k) =>
      match MetadataFromRow(k, versions[k])
      case None => Plan([], Failure(UnreadableRow))
      case Some(m) => Plan([], Success(Stored(m)))
  }

  ghost function ResolvePlan(env: Env, versions: map<VersionKey, VersionRow>, workspaceId: string, secretId: string,
                             version: Option<string>): Plan
  {
    match SelectRow(versions, SecretKey(workspaceId, secretId), version)
    case None => Plan([], Failure(Missing))
    case Some(k) =>
      match MetadataFromRow(k, versions[k])
      case None => Plan([], Failure(UnreadableRow))
      case Some(m) =>
        if m.status == Revoked then Plan([], Failure(SecretRevoked))
        else
          match DecryptRow(env, k, versions[k])
          case Failure(e) => Plan([], Failure(e))
          case Success(value) => Plan([], Success(Resolved(m, value)))
  }

  /** Each operation's plan, over the tables it reads; none reads the audit. */
  ghost function PlanOf(env: Env, draw: Draw, request: Request, db: Db): Plan
  {
    match request
    case Create(w, s, value, labels) => CreatePlan(env, draw, w, s, value, labels)
    case Rotate(w, s, value, labels, expected) => RotatePlan(env, draw, db.versions, w, s, value, labels, expected)
    case RevokeSecret(w, s) => RevokeSecretPlan(env, draw, db.versions, w, s)
    case RevokeVersion(w, s, id, number, caller, correlation, provider) =>
      RevokeVersionPlan(env, draw, db.versions, db.book.revocations, w, s, id, number, caller, correlation, provider)
    case ResolveForUse(w, s, intent, caller, correlation, version) =>
      ResolveForUsePlan(env, draw, db.versions, db.book.pins, w, s, intent, caller, correlation, version)
    case Generate(w, s, reference, purpose, intent, issuer, caller, correlation, provider) =>
      GeneratePlan(env, draw, db.versions, db.book.generations, w, s, reference, purpose, intent, issuer, caller,
                   correlation, provider)
    case ReadMetadata(w, s, version) => ReadMetadataPlan(db.versions, w, s, version)
    case Resolve(w, s, version) => ResolvePlan(env, db.versions, w, s, version)
    case AppendAudit(record) => Plan([InsertAudit(draw.eventId, record)], Success(Appended))
  }

  /** One call as one atomic step on the database. */
  ghost function Execute(env: Env, draw: Draw, request: Request, db: Db): (Db, Outcome)
  {
    Commit(db, PlanOf(env, draw, request, db))
  }

  /** A call that raises leaves all five tables as they were. */
  lemma FailureChangesNothing(env: Env, draw: Draw, request: Request, db: Db)
    ensures var (after, outcome) := Execute(env, draw, request, db); outcome.Failure? ==> after == db
  {
  }

  /** An audit append inserts its record, unless its event id is taken. */
  lemma AppendRecords(env: Env, draw: Draw, record: AuditRecord, db: Db)
    ensures var (after, outcome) := Execute(env, draw, AppendAudit(record), db);
            if draw.eventId in db.book.audit then after == db && outcome.Failure?
            else outcome.Success? && after == db.(book := db.book.(audit := db.book.audit[draw.eventId := record]))
  {
    CommitOne(db, InsertAudit(draw.eventId, record), Appended);
  }
}
