/** Exactly when each call succeeds, and with what reply, on any database: reached by calls or edited
    from outside. The conditions are those of the columns, the keys and the sealed bytes. */
module Decisions {
  import opened Wrappers
  import opened JsonObjects
  import opened Models
  import opened Crypto
  import opened Signing
  import opened Tables
  import opened StoreSpec
  import opened Stutter

  // ----- Rows -------------------------------------------------------------------------------

  /** The columns of a row say exactly this metadata. */
  predicate ReadsAs(k: VersionKey, row: VersionRow, m: Metadata)
  {
    && m.workspaceId == k.workspaceId && m.secretId == k.secretId && m.versionId == k.versionId
    && m.versionNumber == row.versionNumber && StatusText(m.status) == row.status
    && m.algorithm == row.algorithm && m.keyFingerprint == row.keyFingerprint && m.keyVersion == row.keyVersion
    && LoadLabels(row.labelsJson) == Some(m.labels) && m.createdAt == row.createdAt && m.revokedAt == row.revokedAt
  }

  /** The row's ciphertext is the seal of `value` under this key and all of this metadata. */
  predicate Unseals(env: Env, row: VersionRow, m: Metadata, value: Bytes)
  {
    && m.algorithm == ALGORITHM && m.keyFingerprint == env.primitives.fingerprint(env.master.key)
    && row.ciphertext == Sealed(env.master.key, row.nonce, value, Aad(m))
  }

  /** Reading a row yields the metadata its columns say, and nothing else. */
  lemma ReadsExactly(k: VersionKey, row: VersionRow, m: Metadata)
    ensures MetadataFromRow(k, row) == Some(m) <==> ReadsAs(k, row, m)
  {
    hide LoadLabels;
    assert ParseStatus(row.status) == Some(m.status) <==> row.status == StatusText(m.status);
  }

  /** Decrypting a readable row yields exactly what was sealed under its metadata; anything else is tampering. */
  lemma DecryptsExactly(env: Env, k: VersionKey, row: VersionRow, m: Metadata, value: Bytes)
    requires MetadataFromRow(k, row) == Some(m)
    ensures DecryptRow(env, k, row) == Success(value) <==> Unseals(env, row, m, value)
    ensures DecryptRow(env, k, row).Failure? ==> DecryptRow(env, k, row) == Failure(Tampered)
  {
    hide MetadataFromRow, Aad;
  }

  // ----- Create, rotate ---------------------------------------------------------------------

  /** Room for a version: clean labels, a new id, and a number the secret does not have. */
  predicate HasRoom(db: Db, draw: Draw, workspaceId: string, secretId: string, labels: Labels, number: int)
  {
    && LabelsClean(labels) && VersionKey(workspaceId, secretId, draw.versionId) !in db.versions
    && !NumberTaken(db.versions, SecretKey(workspaceId, secretId), number)
  }

  lemma InsertSucceedsExactly(env: Env, draw: Draw, db: Db, w: string, s: string, value: Bytes, labels: Labels,
                              number: int)
    ensures Commit(db, InsertPlan(env, draw, w, s, value, labels, number)).1.Success?
            <==> HasRoom(db, draw, w, s, labels, number)
  {
    hide LabelsClean, NumberTaken, Aad, DumpLabels;
    var m := FreshMetadata(env, draw, w, s, labels, number);
    CommitOne(db, InsertOf(env, draw, m, value), Stored(m));
  }

  lemma CreateSucceedsExactly(env: Env, draw: Draw, request: Request, db: Db)
    requires request.Create?
    ensures Execute(env, draw, request, db).1.Success?
            <==> HasRoom(db, draw, request.workspaceId, request.secretId, request.labels, 1)
  {
    hide InsertPlan, HasRoom, Commit;
    InsertSucceedsExactly(env, draw, db, request.workspaceId, request.secretId, request.value, request.labels, 1);
  }

  /** A rotation succeeds exactly when the secret has a latest row that reads, with the expected intent,
      and there is room for the next number. */
  lemma RotateSucceedsExactly(env: Env, draw: Draw, request: Request, db: Db)
    requires request.Rotate?
    ensures Execute(env, draw, request, db).1.Success?
            <==> exists k, m ::
                   && LatestRow(db.versions, SecretKey(request.workspaceId, request.secretId)) == Some(k)
                   && k in db.versions && ReadsAs(k, db.versions[k], m)
                   && (request.expectedIntent.Some? ==> Label(m.labels, "intent") == request.expectedIntent)
                   && HasRoom(db, draw, request.workspaceId, request.secretId, request.labels, m.versionNumber + 1)
  {
    hide InsertPlan, HasRoom, ApplyAll, MetadataFromRow, ReadsAs, Label;
    var latest := LatestRow(db.versions, SecretKey(request.workspaceId, request.secretId));
    if latest.Some? {
      var k := latest.value;
      assert k in db.versions;
      var m := MetadataFromRow(k, db.versions[k]);
      forall other ensures ReadsAs(k, db.versions[k], other) <==> m == Some(other) {
        ReadsExactly(k, db.versions[k], other);
      }
      if m.Some? {
        InsertSucceedsExactly(env, draw, db, request.workspaceId, request.secretId, request.value, request.labels,
                              m.value.versionNumber + 1);
      }
    }
  }

  // ----- Reads ------------------------------------------------------------------------------

  /** Metadata is replied exactly as the columns of the selected row say it. */
  lemma MetadataRepliesExactly(env: Env, draw: Draw, request: Request, db: Db, m: Metadata)
    requires request.ReadMetadata?
    ensures var secret := SecretKey(request.workspaceId, request.secretId);
            Execute(env, draw, request, db) == (db, Success(Stored(m)))
            <==> exists k :: SelectRow(db.versions, secret, request.version) == Some(k) && k in db.versions
                             && ReadsAs(k, db.versions[k], m)
  {
    hide MetadataFromRow, ReadsAs;
    var selected := SelectRow(db.versions, SecretKey(request.workspaceId, request.secretId), request.version);
    if selected.Some? {
      assert selected.value in db.versions;
      ReadsExactly(selected.value, db.versions[selected.value], m);
    }
  }

  /** The plain resolve returns this pair exactly when the named or latest row is active and unseals it. */
  lemma PlainResolveRepliesExactly(env: Env, draw: Draw, request: Request, db: Db, m: Metadata, value: Bytes)
    requires request.Resolve?
    ensures var secret := SecretKey(request.workspaceId, request.secretId);
            Execute(env, draw, request, db) == (db, Success(Resolved(m, value)))
            <==> exists k :: SelectRow(db.versions, secret, request.version) == Some(k) && k in db.versions
                             && ReadsAs(k, db.versions[k], m) && m.status == Active
                             && Unseals(env, db.versions[k], m, value)
  {
    hide MetadataFromRow, DecryptRow, ReadsAs, Unseals, SelectRow;
    var secret := SecretKey(request.workspaceId, request.secretId);
    var selected := SelectRow(db.versions, secret, request.version);
    SelectedInSecret(db.versions, secret, request.version);
    if selected.Some? {
      var k := selected.value;
      ReadsExactly(k, db.versions[k], m);
      if MetadataFromRow(k, db.versions[k]) == Some(m) {
        DecryptsExactly(env, k, db.versions[k], m, value);
      }
    }
  }

  /** The row a resolve reads: the pinned one, or else the named or the latest. */
  ghost function ChosenRow(request: Request, db: Db): Option<VersionKey>
    requires request.ResolveForUse?
  {
    var at := CorrelationKey(request.workspaceId, request.correlationId);
    if at in db.book.pins then Some(VersionKey(request.workspaceId, request.secretId, db.book.pins[at].versionId))
    else SelectRow(db.versions, SecretKey(request.workspaceId, request.secretId), request.version)
  }

  /** The pin of the correlation, if there is one, is this very request's. */
  predicate PinAllows(request: Request, book: Book)
    requires request.ResolveForUse?
  {
    var at := CorrelationKey(request.workspaceId, request.correlationId);
    at in book.pins ==>
      var pin := book.pins[at];
      && pin.secretId == request.secretId && pin.intent == request.intent
      && pin.callerSubject == request.callerSubject
      && (request.version.Some? ==> request.version.value == pin.versionId)
  }

  ghost predicate Serves(env: Env, db: Db, k: VersionKey, intent: string, m: Metadata, value: Bytes)
  {
    && k in db.versions && ReadsAs(k, db.versions[k], m) && m.status == Active
    && Label(m.labels, "intent") == Some(intent) && Unseals(env, db.versions[k], m, value)
  }

  lemma ReadForUseExactly(env: Env, db: Db, k: VersionKey, intent: string, m: Metadata, value: Bytes)
    ensures ReadForUse(env, db.versions, k, intent) == Success(Resolved(m, value))
            <==> Serves(env, db, k, intent, m, value)
  {
    hide MetadataFromRow, DecryptRow, ReadsAs, Unseals, Label;
    if k in db.versions {
      ReadsExactly(k, db.versions[k], m);
      if MetadataFromRow(k, db.versions[k]) == Some(m) {
        DecryptsExactly(env, k, db.versions[k], m, value);
      }
    }
  }

  /** A resolve returns this pair exactly when the chosen row serves it, on any database. */
  lemma ResolveRepliesExactly(env: Env, draw: Draw, request: Request, db: Db, m: Metadata, value: Bytes)
    requires request.ResolveForUse?
    ensures Execute(env, draw, request, db).1 == Success(Resolved(m, value))
            <==> PinAllows(request, db.book) && ChosenRow(request, db).Some?
                 && Serves(env, db, ChosenRow(request, db).value, request.intent, m, value)
  {
    hide MetadataFromRow, DecryptRow, ReadsAs, Unseals, Label, ReadForUse, Serves, LatestRow;
    var at := CorrelationKey(request.workspaceId, request.correlationId);
    var chosen := ChosenRow(request, db);
    if chosen.Some? {
      ReadForUseExactly(env, db, chosen.value, request.intent, m, value);
      if at !in db.book.pins {
        FreshResolveExactly(env, draw, request, db, chosen.value);
      }
    }
  }

  lemma SelectedInSecret(versions: map<VersionKey, VersionRow>, secret: SecretKey, version: Option<string>)
    ensures var k := SelectRow(versions, secret, version);
            k.Some? ==> k.value in versions && SecretOf(k.value) == secret
  {
  }

  lemma FreshResolveExactly(env: Env, draw: Draw, request: Request, db: Db, k: VersionKey)
    requires request.ResolveForUse? && CorrelationKey(request.workspaceId, request.correlationId) !in db.book.pins
    requires SelectRow(db.versions, SecretKey(request.workspaceId, request.secretId), request.version) == Some(k)
    ensures var outcome := Execute(env, draw, request, db).1;
            var read := ReadForUse(env, db.versions, k, request.intent);
            outcome == read
  {
    hide LoadLabels, ParseStatus, DecryptRow, Label, SelectRow;
    SelectedInSecret(db.versions, SecretKey(request.workspaceId, request.secretId), request.version);
    var plan := PlanOf(env, draw, request, db);
    if plan.statements != [] {
      var s := plan.statements[0];
      assert plan.statements == [s];
      ApplyOne(db, s);
    }
  }

  // ----- Generation -------------------------------------------------------------------------

  /** The request is the one recorded under its correlation id. */
  predicate AsRecorded(request: Request, g: Generation)
    requires request.Generate?
  {
    && g.secretId == request.secretId && g.secretReference == request.secretReference && g.purpose == request.purpose
    && g.issuer == request.issuer && g.callerSubject == request.callerSubject
  }

  /** The private key a row holds derives exactly the recorded public key and key id. */
  predicate Derives(p: Primitives, pem: Bytes, g: Generation)
  {
    && p.loadPrivate(pem).Some? && p.publicPem(p.loadPrivate(pem).value) == g.publicPem
    && g.keyId == "gateway-" + p.sha256Hex(g.publicPem)
  }

  /** The record is within its bounds and the family's, and its active row is sealed and derives it. */
  ghost predicate RecordIntact(env: Env, row: VersionRow, m: Metadata, g: Generation, intent: string)
  {
    && |g.publicPem| <= 8192 && |g.keyId| <= 128 && g.algorithm == "ed25519"
    && m.labels == map["intent" := intent, "purpose" := g.purpose, "issuer" := g.issuer, "key_id" := g.keyId]
    && exists pem :: Unseals(env, row, m, pem) && Derives(env.primitives, pem, g)
  }

  lemma ReadGenerationExactly(env: Env, db: Db, at: CorrelationKey, g: Generation, intent: string)
    ensures var k := VersionKey(at.workspaceId, g.secretId, g.versionId);
            ReadGeneration(env, db.versions, at, g, intent)
            == if k !in db.versions then Failure(Missing)
               else
                 match MetadataFromRow(k, db.versions[k])
                 case None => Failure(Tampered)
                 case Some(m) =>
                   if m.status == Revoked then Failure(Error.SecretRevoked)
                   else if !RecordIntact(env, db.versions[k], m, g, intent) then Failure(Tampered)
                   else
                     Success(GeneratedKey(m, g.secretReference, g.purpose, g.issuer, at.correlationId, g.keyId,
                                          "ed25519", g.publicPem, true))
  {
    hide MetadataFromRow, DecryptRow, Unseals;
    var k := VersionKey(at.workspaceId, g.secretId, g.versionId);
    if k in db.versions && MetadataFromRow(k, db.versions[k]).Some? {
      var row, m := db.versions[k], MetadataFromRow(k, db.versions[k]).value;
      forall pem ensures DecryptRow(env, k, row) == Success(pem) <==> Unseals(env, row, m, pem) {
        DecryptsExactly(env, k, row, m, pem);
      }
      DecryptsExactly(env, k, row, m, []);
    }
  }

  /** Whatever the tables hold, a generation under a recorded correlation id answers exactly this: other
      semantics conflict; a missing, unreadable or revoked row is reported as such; an active row that
      is not sealed under its metadata, or whose key does not derive the record, is tampering; and
      otherwise the reply is the recorded identity, with one audit row, unless the event id is taken. */
  lemma GenerationReplaysExactly(env: Env, draw: Draw, request: Request, db: Db)
    requires request.Generate? && CorrelationKey(request.workspaceId, request.correlationId) in db.book.generations
    ensures var (after, outcome) := Execute(env, draw, request, db);
            var at := CorrelationKey(request.workspaceId, request.correlationId);
            var g := db.book.generations[at];
            var k := VersionKey(request.workspaceId, g.secretId, g.versionId);
            if IntentFor(request.purpose) != Some(request.intent) then outcome == Failure(MetadataInvalid)
            else if !AsRecorded(request, g) then outcome == Failure(GenerationConflict)
            else if k !in db.versions then outcome == Failure(Missing)
            else
              match MetadataFromRow(k, db.versions[k])
              case None => outcome == Failure(Tampered)
              case Some(m) =>
                if m.status == Revoked then outcome == Failure(Error.SecretRevoked)
                else if !RecordIntact(env, db.versions[k], m, g, request.intent) then outcome == Failure(Tampered)
                else if draw.eventId in db.book.audit then outcome == Failure(AuditUnavailable)
                else
                  && outcome
                     == Success(Generated(GeneratedKey(m, g.secretReference, g.purpose, g.issuer, request.correlationId,
                                                       g.keyId, "ed25519", g.publicPem, true)))
                  && after
                     == db.(book := db.book.(audit := db.book.audit[draw.eventId :=
                          AuditRecord(request.providerId, request.workspaceId, request.secretId, Some(g.versionId),
                                      Some(request.intent), request.callerSubject, request.correlationId,
                                      DelegationKeyGenerationReplayed, draw.auditedAt)]))
  {
    hide IntentFor, ReadGeneration, RecordIntact, ParseStatus, LoadLabels, SelectRow;
    var at := CorrelationKey(request.workspaceId, request.correlationId);
    ReadGenerationExactly(env, db, at, db.book.generations[at], request.intent);
    var plan := PlanOf(env, draw, request, db);
    if plan.statements != [] {
      assert plan.statements == [plan.statements[0]];
      CommitOne(db, plan.statements[0], plan.outcome.value);
    }
  }

  lemma FirstPlanFails(env: Env, draw: Draw, request: Request, db: Db)
    requires request.Generate? || request.RevokeVersion?
    requires !IsReuse(request, db.book) && PlanOf(env, draw, request, db).statements == []
    ensures PlanOf(env, draw, request, db).outcome.Failure?
  {
    hide IntentFor, LabelsClean, FamilyLabels, MetadataFromRow, DecryptRow, VersionRevocationRecorded, SealedRow,
         RevokeUpdate, DelegationKeyId;
  }

  /** A first generation or revocation succeeds exactly when it passes the guards before its audit insert
      and drew a free event id. */
  lemma FirstCallSucceedsExactly(env: Env, draw: Draw, request: Request, db: Db)
    requires request.Generate? || request.RevokeVersion?
    requires !IsReuse(request, db.book)
    ensures Execute(env, draw, request, db).1.Success?
            <==> ReachesAudit(env, draw, request, db) && draw.eventId !in db.book.audit
  {
    hide ReachesAudit, PlanOf, AuditsLast, IsReuse;
    if ReachesAudit(env, draw, request, db) {
      ReachingCall(env, draw, request, db);
    } else {
      var plan := PlanOf(env, draw, request, db);
      ReachesIsPlan(env, draw, request, db);
      if plan.statements == [] {
        FirstPlanFails(env, draw, request, db);
      } else {
        FirstPlanAudits(env, draw, request, db);
        var init, last := plan.statements[..|plan.statements| - 1], plan.statements[|plan.statements| - 1];
        assert plan.statements == init + [last];
        ApplyAllAppend(db, init, [last]);
      }
    }
  }

  lemma FirstPlanAudits(env: Env, draw: Draw, request: Request, db: Db)
    requires request.Generate? || request.RevokeVersion?
    requires PlanOf(env, draw, request, db).statements != []
    ensures var statements := PlanOf(env, draw, request, db).statements; statements[|statements| - 1].InsertAudit?
  {
    hide IntentFor, LabelsClean, FamilyLabels, MetadataFromRow, DecryptRow, VersionRevocationRecorded, SealedRow,
         RevokeUpdate, DelegationKeyId, ReadGeneration;
  }

  // ----- Exact-version revocation -----------------------------------------------------------

  /** Whatever the tables hold, a revocation under a recorded correlation id answers exactly this: another
      target or actor conflicts, and so does a row that is not revoked or has another number; otherwise
      the reply is the row's metadata, with one audit row, unless the event id is taken. */
  lemma RevocationReplaysExactly(env: Env, draw: Draw, request: Request, db: Db)
    requires request.RevokeVersion? && CorrelationKey(request.workspaceId, request.correlationId) in db.book.revocations
    ensures var (after, outcome) := Execute(env, draw, request, db);
            var r := db.book.revocations[CorrelationKey(request.workspaceId, request.correlationId)];
            var k := VersionKey(request.workspaceId, request.secretId, request.versionId);
            if r.secretId != request.secretId || r.versionId != request.versionId
               || r.versionNumber != request.versionNumber || r.callerSubject != request.callerSubject then
              outcome == Failure(RevocationConflict)
            else if k !in db.versions then outcome == Failure(Missing)
            else
              match MetadataFromRow(k, db.versions[k])
              case None => outcome == Failure(UnreadableRow)
              case Some(m) =>
                if m.versionNumber != request.versionNumber || m.status != Revoked then
                  outcome == Failure(RevocationConflict)
                else if draw.eventId in db.book.audit then outcome == Failure(AuditUnavailable)
                else
                  && outcome == Success(Stored(m))
                  && after
                     == db.(book := db.book.(audit := db.book.audit[draw.eventId :=
                          AuditRecord(request.providerId, request.workspaceId, request.secretId,
                                      Some(request.versionId), Label(m.labels, "intent"), request.callerSubject,
                                      request.correlationId, SecretVersionRevocationReplayed, draw.auditedAt)]))
  {
    hide MetadataFromRow, Label, SelectRow;
    var plan := PlanOf(env, draw, request, db);
    if plan.statements != [] {
      assert plan.statements == [plan.statements[0]];
      CommitOne(db, plan.statements[0], plan.outcome.value);
    }
  }
}
