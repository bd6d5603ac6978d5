/** What the operations do to whatever rows a database holds, reachable or edited from outside. */
module AnyTables {
  import opened Wrappers
  import opened JsonObjects
  import opened Models
  import opened Crypto
  import opened Signing
  import opened Tables
  import opened StoreSpec

  // ----- Revoking a row ---------------------------------------------------------------------

  /** A row whole-reference revocation can handle: readable, and decryptable unless already revoked. */
  predicate Revocable(env: Env, k: VersionKey, row: VersionRow)
  {
    var m := MetadataFromRow(k, row);
    m.Some? && (m.value.status == Active ==> DecryptRow(env, k, row).Success?)
  }

  /** `after` is `before` revoked at `now` with the same plaintext, or `before` itself if it was revoked. */
  ghost predicate RowRevokedTo(env: Env, k: VersionKey, before: VersionRow, after: VersionRow, now: string)
    requires MetadataFromRow(k, before).Some?
  {
    var m := MetadataFromRow(k, before).value;
    if m.status == Revoked then after == before
    else
      && MetadataFromRow(k, after) == Some(AsRevoked(m, now))
      && DecryptRow(env, k, after) == DecryptRow(env, k, before)
  }

  function MetadataAfter(k: VersionKey, row: VersionRow, now: string): Metadata
    requires MetadataFromRow(k, row).Some?
  {
    var m := MetadataFromRow(k, row).value;
    if m.status == Revoked then m else AsRevoked(m, now)
  }

  lemma MetadataNamesRow(k: VersionKey, row: VersionRow, now: string)
    requires MetadataFromRow(k, row).Some?
    ensures KeyOf(MetadataAfter(k, row, now)) == k && MetadataAfter(k, row, now).versionNumber == row.versionNumber
  {
  }

  /** The statement of `_revoke_row` on a database that holds the row. */
  lemma UpdateRevokes(env: Env, db: Db, k: VersionKey, m: Metadata, nonce: Bytes, value: Bytes, now: string)
    requires k in db.versions && MetadataFromRow(k, db.versions[k]) == Some(m)
    requires DecryptRow(env, k, db.versions[k]) == Success(value)
    ensures var r := Apply(db, RevokeUpdate(env, m, nonce, value, now));
            && r.Success? && r.value.book == db.book && k in r.value.versions
            && r.value.versions == db.versions[k := r.value.versions[k]]
            && MetadataFromRow(k, r.value.versions[k]) == Some(AsRevoked(m, now))
            && DecryptRow(env, k, r.value.versions[k]) == Success(value)
  {
    hide LoadLabels, Aad;
    assert ParseStatus(StatusText(Revoked)) == Some(Revoked);
  }

  // ----- Whole-reference revocation ---------------------------------------------------------

  ghost predicate AllRevocable(env: Env, versions: map<VersionKey, VersionRow>, ks: seq<VersionKey>, i: nat)
    requires i <= |ks| && forall k :: k in ks ==> k in versions
  {
    forall j | i <= j < |ks| :: Revocable(env, ks[j], versions[ks[j]])
  }

  /** The database still holds the fetched rows from `i` on. */
  ghost predicate StillHolds(versions: map<VersionKey, VersionRow>, ks: seq<VersionKey>, i: nat, current: Db)
    requires i <= |ks| && forall k :: k in ks ==> k in versions
  {
    forall j | i <= j < |ks| :: ks[j] in current.versions && current.versions[ks[j]] == versions[ks[j]]
  }

  ghost predicate Distinct(ks: seq<VersionKey>)
  {
    forall i, j | 0 <= i < j < |ks| :: ks[i] != ks[j]
  }

  /** The loop succeeds exactly when every remaining row is revocable. */
  lemma {:induction false} LoopSucceeds(env: Env, draw: Draw, versions: map<VersionKey, VersionRow>,
                                        ks: seq<VersionKey>, i: nat)
    requires i <= |ks| && forall k :: k in ks ==> k in versions
    ensures RevokeRows(env, draw, versions, ks, i).outcome.Success? <==> AllRevocable(env, versions, ks, i)
    decreases |ks| - i
  {
    hide MetadataFromRow, DecryptRow, RevokeUpdate;
    if i < |ks| {
      LoopSucceeds(env, draw, versions, ks, i + 1);
      assert AllRevocable(env, versions, ks, i)
             <==> Revocable(env, ks[i], versions[ks[i]]) && AllRevocable(env, versions, ks, i + 1);
    }
  }

  lemma {:induction false} LoopReplies(env: Env, draw: Draw, versions: map<VersionKey, VersionRow>,
                                       ks: seq<VersionKey>, i: nat, j: nat)
    requires i <= |ks| && forall k :: k in ks ==> k in versions
    requires RevokeRows(env, draw, versions, ks, i).outcome.Success?
    ensures var all := RevokeRows(env, draw, versions, ks, i).outcome.value;
            && |all| == |ks| - i
            && (i <= j < |ks| ==>
                  && MetadataFromRow(ks[j], versions[ks[j]]).Some?
                  && all[j - i] == MetadataAfter(ks[j], versions[ks[j]], draw.now))
    decreases |ks| - i
  {
    hide MetadataFromRow, DecryptRow, RevokeUpdate, AsRevoked;
    if i < |ks| {
      LoopReplies(env, draw, versions, ks, i + 1, j);
    }
  }

  /** What the loop from row `i` on does to one key of the database. */
  ghost predicate RowAfterLoop(env: Env, draw: Draw, versions: map<VersionKey, VersionRow>, ks: seq<VersionKey>, i: nat,
                               current: Db, k: VersionKey)
    requires i <= |ks| && forall key :: key in ks ==> key in versions
  {
    var r := ApplyAll(current, RevokeRows(env, draw, versions, ks, i).statements);
    && r.Success? && r.value.book == current.book
    && (k in r.value.versions <==> k in current.versions)
    && (k in current.versions ==>
          if k in ks[i..] then
            MetadataFromRow(k, versions[k]).Some? && RowRevokedTo(env, k, versions[k], r.value.versions[k], draw.now)
          else r.value.versions[k] == current.versions[k])
  }

  lemma RowAfterSkip(env: Env, draw: Draw, versions: map<VersionKey, VersionRow>, ks: seq<VersionKey>, i: nat,
                     current: Db, k: VersionKey)
    requires i < |ks| && Distinct(ks) && forall key :: key in ks ==> key in versions
    requires StillHolds(versions, ks, i, current)
    requires MetadataFromRow(ks[i], versions[ks[i]]).Some?
    requires MetadataFromRow(ks[i], versions[ks[i]]).value.status == Revoked
    requires RowAfterLoop(env, draw, versions, ks, i + 1, current, k)
    ensures RowAfterLoop(env, draw, versions, ks, i, current, k)
  {
    hide MetadataFromRow, DecryptRow, ApplyAll;
    assert ks[i..] == [ks[i]] + ks[i + 1..];
  }

  lemma ApplyStep(db: Db, s: Statement, next: Db, tail: seq<Statement>)
    requires Apply(db, s) == Success(next)
    ensures ApplyAll(db, [s] + tail) == ApplyAll(next, tail)
  {
    assert ([s] + tail)[1..] == tail;
  }

  lemma RowAfterUpdate(env: Env, draw: Draw, versions: map<VersionKey, VersionRow>, ks: seq<VersionKey>, i: nat,
                       current: Db, next: Db, m: Metadata, value: Bytes, k: VersionKey)
    requires i < |ks| && Distinct(ks) && forall key :: key in ks ==> key in versions
    requires StillHolds(versions, ks, i, current)
    requires MetadataFromRow(ks[i], versions[ks[i]]) == Some(m) && m.status == Active
    requires DecryptRow(env, ks[i], versions[ks[i]]) == Success(value)
    requires Apply(current, RevokeUpdate(env, m, draw.nonce(i), value, draw.now)) == Success(next)
    requires next.book == current.book && ks[i] in next.versions
    requires next.versions == current.versions[ks[i] := next.versions[ks[i]]]
    requires RowRevokedTo(env, ks[i], versions[ks[i]], next.versions[ks[i]], draw.now)
    requires RowAfterLoop(env, draw, versions, ks, i + 1, next, k)
    ensures RowAfterLoop(env, draw, versions, ks, i, current, k)
  {
    hide MetadataFromRow, DecryptRow, Apply, ApplyAll, RevokeUpdate, RowRevokedTo;
    var tail := RevokeRows(env, draw, versions, ks, i + 1);
    var update := RevokeUpdate(env, m, draw.nonce(i), value, draw.now);
    ApplyStep(current, update, next, tail.statements);
    assert RevokeRows(env, draw, versions, ks, i).statements == [update] + tail.statements;
    assert ks[i..] == [ks[i]] + ks[i + 1..];
    assert ks[i] !in ks[i + 1..];
  }

  lemma {:induction false} LoopRevokes(env: Env, draw: Draw, versions: map<VersionKey, VersionRow>, ks: seq<VersionKey>,
                                       i: nat, current: Db, k: VersionKey)
    requires i <= |ks| && Distinct(ks) && forall key :: key in ks ==> key in versions
    requires StillHolds(versions, ks, i, current) && AllRevocable(env, versions, ks, i)
    ensures RowAfterLoop(env, draw, versions, ks, i, current, k)
    decreases |ks| - i
  {
    hide MetadataFromRow, DecryptRow, Apply, RevokeUpdate;
    if i < |ks| {
      var key, row := ks[i], versions[ks[i]];
      assert Revocable(env, key, row);
      var m := MetadataFromRow(key, row).value;
      if m.status == Revoked {
        LoopRevokes(env, draw, versions, ks, i + 1, current, k);
        RowAfterSkip(env, draw, versions, ks, i, current, k);
      } else {
        var value := DecryptRow(env, key, row).value;
        UpdateRevokes(env, current, key, m, draw.nonce(i), value, draw.now);
        var next := Apply(current, RevokeUpdate(env, m, draw.nonce(i), value, draw.now)).value;
        LoopRevokes(env, draw, versions, ks, i + 1, next, k);
        RowAfterUpdate(env, draw, versions, ks, i, current, next, m, value, k);
      }
    }
  }

  /** Whole-reference revocation succeeds exactly when the secret has rows and every one of them is
      revocable; otherwise nothing changes. */
  lemma RevokeIsAllOrNothing(env: Env, draw: Draw, db: Db, secret: SecretKey)
    ensures var (after, outcome) := Execute(env, draw, RevokeSecret(secret.workspaceId, secret.secretId), db);
            var rows := RowsOf(db.versions, secret);
            && (outcome.Success? <==> rows != {} && forall k :: k in rows ==> Revocable(env, k, db.versions[k]))
            && (outcome.Failure? ==> after == db)
  {
    hide MetadataFromRow, DecryptRow, Revocable, Apply, RevokeRows, Ascending;
    var rows := RowsOf(db.versions, secret);
    var ks := Ascending(db.versions, rows);
    AscendingOrders(db.versions, rows);
    LoopSucceeds(env, draw, db.versions, ks, 0);
    assert ks == [] <==> rows == {};
    if AllRevocable(env, db.versions, ks, 0) {
      forall k | k in rows ensures Revocable(env, k, db.versions[k]) {
        var j :| 0 <= j < |ks| && ks[j] == k;
      }
      LoopRevokes(env, draw, db.versions, ks, 0, db, VersionKey("", "", ""));
    }
  }

  /** When it succeeds every row of the secret ends revoked: newly revoked rows share one time and
      keep their plaintext, rows revoked before keep everything, and no other row changes. */
  lemma RevokeChangesItsRows(env: Env, draw: Draw, db: Db, secret: SecretKey, k: VersionKey)
    requires Execute(env, draw, RevokeSecret(secret.workspaceId, secret.secretId), db).1.Success?
    ensures var after := Execute(env, draw, RevokeSecret(secret.workspaceId, secret.secretId), db).0;
            && after.book == db.book && (k in after.versions <==> k in db.versions)
            && (k in db.versions ==>
                  if SecretOf(k) == secret then
                    MetadataFromRow(k, db.versions[k]).Some?
                    && RowRevokedTo(env, k, db.versions[k], after.versions[k], draw.now)
                  else after.versions[k] == db.versions[k])
  {
    hide MetadataFromRow, DecryptRow, Revocable, Apply, RevokeRows, Ascending, RowRevokedTo;
    var rows := RowsOf(db.versions, secret);
    var ks := Ascending(db.versions, rows);
    AscendingOrders(db.versions, rows);
    LoopSucceeds(env, draw, db.versions, ks, 0);
    LoopRevokes(env, draw, db.versions, ks, 0, db, k);
    assert ks[0..] == ks;
  }

  /** Its reply lists one metadata per row, in ascending version order. */
  lemma RevokeRepliesInOrder(env: Env, draw: Draw, db: Db, secret: SecretKey, i: nat, j: nat)
    requires Execute(env, draw, RevokeSecret(secret.workspaceId, secret.secretId), db).1.Success?
    ensures var reply := Execute(env, draw, RevokeSecret(secret.workspaceId, secret.secretId), db).1.value;
            && reply.RevokedAll? && |reply.all| == |RowsOf(db.versions, secret)|
            && (i < |reply.all| ==>
                  var k := KeyOf(reply.all[i]);
                  && k in RowsOf(db.versions, secret) && MetadataFromRow(k, db.versions[k]).Some?
                  && reply.all[i] == MetadataAfter(k, db.versions[k], draw.now))
            && (i < j < |reply.all| ==>
                  reply.all[i].versionNumber <= reply.all[j].versionNumber
                    && KeyOf(reply.all[i]) != KeyOf(reply.all[j]))
  {
    hide MetadataFromRow, DecryptRow, RevokeRows, ApplyAll, Ascending;
    var rows := RowsOf(db.versions, secret);
    var ks := Ascending(db.versions, rows);
    AscendingOrders(db.versions, rows);
    LoopReplies(env, draw, db.versions, ks, 0, i);
    LoopReplies(env, draw, db.versions, ks, 0, j);
    forall n | 0 <= n < |ks| && MetadataFromRow(ks[n], db.versions[ks[n]]).Some?
      ensures KeyOf(MetadataAfter(ks[n], db.versions[ks[n]], draw.now)) == ks[n]
      ensures MetadataAfter(ks[n], db.versions[ks[n]], draw.now).versionNumber == db.versions[ks[n]].versionNumber
    {
      MetadataNamesRow(ks[n], db.versions[ks[n]], draw.now);
    }
  }

  // ----- Exact-version revocation -----------------------------------------------------------

  /** A first success under a correlation id changes the named row, adds its record and its audit
      row, and changes nothing else in the database. */
  lemma FirstRevocationChangesOneRow(env: Env, draw: Draw, request: Request, db: Db)
    requires request.RevokeVersion?
    requires CorrelationKey(request.workspaceId, request.correlationId) !in db.book.revocations
    requires Execute(env, draw, request, db).1.Success?
    ensures var (after, outcome) := Execute(env, draw, request, db);
            var at := CorrelationKey(request.workspaceId, request.correlationId);
            var k := VersionKey(request.workspaceId, request.secretId, request.versionId);
            && k in db.versions && MetadataFromRow(k, db.versions[k]).Some?
            && var m := MetadataFromRow(k, db.versions[k]).value;
            && m.status == Active && m.versionNumber == request.versionNumber
            && outcome == Success(Stored(AsRevoked(m, draw.now)))
            && k in after.versions && after.versions == db.versions[k := after.versions[k]]
            && RowRevokedTo(env, k, db.versions[k], after.versions[k], draw.now)
            && after.book.pins == db.book.pins && after.book.generations == db.book.generations
            && after.book.revocations
               == db.book.revocations[at := Revocation(request.secretId, request.versionId, request.versionNumber,
                                                       request.callerSubject, draw.now)]
            && draw.eventId !in db.book.audit
            && after.book.audit
               == db.book.audit[draw.eventId :=
                    AuditRecord(request.providerId, request.workspaceId, request.secretId, Some(request.versionId),
                                Label(m.labels, "intent"), request.callerSubject, request.correlationId,
                                SecretVersionRevoked, draw.auditedAt)]
  {
    hide DecryptRow, RevokeUpdate, VersionRevocationRecorded;
    var at := CorrelationKey(request.workspaceId, request.correlationId);
    var k := VersionKey(request.workspaceId, request.secretId, request.versionId);
    var m, value := MetadataFromRow(k, db.versions[k]).value, DecryptRow(env, k, db.versions[k]).value;
    UpdateRevokes(env, db, k, m, draw.nonce(0), value, draw.now);
    var plan := RetirePlan(env, draw, m, value, at, request.callerSubject, request.providerId);
    CommitThree(db, plan.statements[0], plan.statements[1], plan.statements[2], plan.outcome.value);
  }

  // ----- Writes -----------------------------------------------------------------------------

  /** The row holds `value`, sealed under metadata `m` and readable back from the row. */
  ghost predicate HoldsSealed(env: Env, row: VersionRow, m: Metadata, value: Bytes)
  {
    && MetadataFromRow(KeyOf(m), row) == Some(m)
    && DecryptRow(env, KeyOf(m), row) == Success(value)
  }

  /** What a new version's metadata must say, whatever stored it. */
  ghost predicate IsNew(env: Env, draw: Draw, m: Metadata, workspaceId: string, secretId: string, number: int,
                        labels: Labels)
  {
    && m.workspaceId == workspaceId && m.secretId == secretId && m.versionId == draw.versionId
    && m.versionNumber == number && m.labels == labels && m.createdAt == draw.now
    && m.status == Active && m.revokedAt.None? && m.keyVersion == env.master.version
  }

  lemma InsertAddsOneRow(env: Env, draw: Draw, db: Db, w: string, s: string, value: Bytes, labels: Labels, number: int)
    requires Commit(db, InsertPlan(env, draw, w, s, value, labels, number)).1.Success?
    ensures var (after, outcome) := Commit(db, InsertPlan(env, draw, w, s, value, labels, number));
            && LabelsClean(labels) && outcome.value.Stored? && after.book == db.book
            && var m := outcome.value.metadata;
            && IsNew(env, draw, m, w, s, number, labels)
            && KeyOf(m) !in db.versions && !NumberTaken(db.versions, SecretKey(w, s), number)
            && KeyOf(m) in after.versions && after.versions == db.versions[KeyOf(m) := after.versions[KeyOf(m)]]
            && HoldsSealed(env, after.versions[KeyOf(m)], m, value)
  {
    hide LabelsClean, MetadataFromRow, DecryptRow, NumberTaken;
    var m := FreshMetadata(env, draw, w, s, labels, number);
    CommitOne(db, InsertOf(env, draw, m, value), Stored(m));
    SealedRowReadsBack(env, draw.nonce(0), m, value);
  }

  /** A successful create or rotation, on any tables, adds exactly one row: number 1, or one more than
      the highest-numbered row, whose intent was the expected one. */
  lemma WriteAddsOneRow(env: Env, draw: Draw, request: Request, db: Db)
    requires request.Create? || request.Rotate?
    requires Execute(env, draw, request, db).1.Success?
    ensures var (after, outcome) := Execute(env, draw, request, db);
            && outcome.value.Stored? && after.book == db.book
            && var m := outcome.value.metadata;
            && IsNew(env, draw, m, request.workspaceId, request.secretId, m.versionNumber, request.labels)
            && KeyOf(m) !in db.versions && KeyOf(m) in after.versions
            && after.versions == db.versions[KeyOf(m) := after.versions[KeyOf(m)]]
            && HoldsSealed(env, after.versions[KeyOf(m)], m, request.value)
            && (request.Create? ==> m.versionNumber == 1)
            && (request.Rotate? ==>
                  exists k :: IsLatest(db.versions, SecretKey(request.workspaceId, request.secretId), k)
                              && m.versionNumber == db.versions[k].versionNumber + 1
                              && (request.expectedIntent.Some? ==>
                                    var latest := MetadataFromRow(k, db.versions[k]);
                                    latest.Some? && Label(latest.value.labels, "intent") == request.expectedIntent))
  {
    hide InsertPlan, HoldsSealed, IsNew, LoadLabels, LabelsClean, NumberTaken, Label, ApplyAll;
    if request.Create? {
      InsertAddsOneRow(env, draw, db, request.workspaceId, request.secretId, request.value, request.labels, 1);
      NewNumber(env, draw, Execute(env, draw, request, db).1.value.metadata, request.workspaceId, request.secretId, 1,
                request.labels);
    } else {
      var k := LatestRow(db.versions, SecretKey(request.workspaceId, request.secretId)).value;
      var number := db.versions[k].versionNumber + 1;
      InsertAddsOneRow(env, draw, db, request.workspaceId, request.secretId, request.value, request.labels, number);
      NewNumber(env, draw, Execute(env, draw, request, db).1.value.metadata, request.workspaceId, request.secretId,
                number, request.labels);
    }
  }

  lemma NewNumber(env: Env, draw: Draw, m: Metadata, w: string, s: string, number: int, labels: Labels)
    requires IsNew(env, draw, m, w, s, number, labels)
    ensures m.versionNumber == number && IsNew(env, draw, m, w, s, m.versionNumber, labels)
  {
  }

  /** A first success under a generation correlation id, on any tables, adds version 1 with the private
      key, the generation record with the public identity, and one audit row, and nothing else. */
  lemma FirstGenerationAddsThreeRows(env: Env, draw: Draw, request: Request, db: Db)
    requires request.Generate?
    requires CorrelationKey(request.workspaceId, request.correlationId) !in db.book.generations
    requires Execute(env, draw, request, db).1.Success?
    ensures var (after, outcome) := Execute(env, draw, request, db);
            var at := CorrelationKey(request.workspaceId, request.correlationId);
            var pem := env.primitives.publicPem(draw.seed);
            var keyId := DelegationKeyId(env.primitives, pem);
            && outcome.value.Generated?
            && var m := outcome.value.key.metadata;
            && IsNew(env, draw, m, request.workspaceId, request.secretId, 1,
                     map["intent" := request.intent, "purpose" := request.purpose, "issuer" := request.issuer,
                         "key_id" := keyId])
            && outcome.value.key
               == GeneratedKey(m, request.secretReference, request.purpose, request.issuer, request.correlationId,
                               keyId, DELEGATION_KEY_ALGORITHM, pem, false)
            && KeyOf(m) !in db.versions && KeyOf(m) in after.versions
            && after.versions == db.versions[KeyOf(m) := after.versions[KeyOf(m)]]
            && HoldsSealed(env, after.versions[KeyOf(m)], m, env.primitives.privatePem(draw.seed))
            && after.book.pins == db.book.pins && after.book.revocations == db.book.revocations
            && after.book.generations
               == db.book.generations[at :=
                    Generation(request.secretId, request.secretReference, request.purpose, request.issuer,
                               request.callerSubject, m.versionId, keyId, DELEGATION_KEY_ALGORITHM, pem, draw.now)]
            && draw.eventId !in db.book.audit
            && after.book.audit
               == db.book.audit[draw.eventId :=
                    AuditRecord(request.providerId, request.workspaceId, request.secretId, Some(m.versionId),
                                Some(request.intent), request.callerSubject, request.correlationId,
                                DelegationKeyGenerated, draw.auditedAt)]
  {
    hide LabelsClean, MetadataFromRow, DecryptRow, NumberTaken, SecretGenerated, SealedRow, IntentFor, DelegationKeyId;
    var plan := PlanOf(env, draw, request, db);
    var m := plan.outcome.value.key.metadata;
    SealedRowReadsBack(env, draw.nonce(0), m, env.primitives.privatePem(draw.seed));
    CommitThree(db, plan.statements[0], plan.statements[1], plan.statements[2], plan.outcome.value);
  }

  /** A first success under a resolution correlation id, on any tables, adds exactly its pin. */
  lemma FirstResolveAddsItsPin(env: Env, draw: Draw, request: Request, db: Db)
    requires request.ResolveForUse?
    requires CorrelationKey(request.workspaceId, request.correlationId) !in db.book.pins
    requires Execute(env, draw, request, db).1.Success?
    ensures var (after, outcome) := Execute(env, draw, request, db);
            var at := CorrelationKey(request.workspaceId, request.correlationId);
            && outcome.value.Resolved? && outcome.value.metadata.workspaceId == request.workspaceId
            && outcome.value.metadata.secretId == request.secretId
            && (request.version.Some? ==> outcome.value.metadata.versionId == request.version.value)
            && after.versions == db.versions
            && after.book
               == db.book.(pins := db.book.pins[at := Pin(request.secretId, request.intent, request.callerSubject,
                                                          outcome.value.metadata.versionId, draw.now)])
  {
    hide LoadLabels, DecryptRow, Label, LatestRow;
    var plan := PlanOf(env, draw, request, db);
    CommitOne(db, plan.statements[0], plan.outcome.value);
  }
}
