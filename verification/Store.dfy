/** The store and the audit store as the objects that run them: statements on a database one at a
    time, with checks, early exits and rollback in the code's order. Every public operation is
    proved to do what its plan in `StoreSpec` does. */
module Store {
  import opened Wrappers
  import opened JsonObjects
  import opened Models
  import opened Crypto
  import opened Signing
  import opened Tables
  import opened StoreSpec

  /** One statement ran: it changed the database as `Apply` says, or failed and changed nothing. */
  ghost predicate Ran(before: Db, s: Statement, after: Db, r: Result<(), Error>)
  {
    && Apply(before, s) == (if r.Success? then Success(after) else Failure(r.error))
    && (r.Failure? ==> after == before)
  }

  /** The body of a transaction ran: its outcome is the plan's, and if it succeeded so are its effects. */
  ghost predicate Done(before: Db, plan: Plan, after: Db, r: Outcome)
  {
    r == Commit(before, plan).1 && (r.Success? ==> after == Commit(before, plan).0)
  }

  /** An operation returned: the plan as one transaction, or nothing at all when the commit failed. */
  ghost predicate Returned(before: Db, plan: Plan, commits: bool, after: Db, r: Outcome)
  {
    var (next, outcome) := Commit(before, plan);
    if outcome.Success? && !commits then after == before && r == Failure(StorageFailure)
    else after == next && r == outcome
  }

  lemma DoneReturns(before: Db, plan: Plan, commits: bool, after: Db, r: Outcome)
    requires Done(before, plan, after, r)
    ensures Returned(before, plan, commits, if r.Success? && commits then after else before,
                     if r.Success? && !commits then Failure(StorageFailure) else r)
  {
  }

  /** A statement of a plan succeeded, and the rest of the plan is still to run. */
  lemma RanFirst(before: Db, s: Statement, middle: Db, rest: Plan, r: Result<(), Error>, after: Db, outcome: Outcome)
    requires Ran(before, s, middle, r)
    requires if r.Success? then Done(middle, rest, after, outcome) else outcome == Failure(r.error)
    ensures Done(before, Plan([s] + rest.statements, rest.outcome), after, outcome)
  {
    assert ([s] + rest.statements)[1..] == rest.statements;
  }

  lemma DoneNone(db: Db, outcome: Outcome)
    ensures Done(db, Plan([], outcome), db, outcome)
  {
  }

  /** The first statement of a plan failed. */
  lemma FailedFirst(before: Db, s: Statement, rest: Plan, after: Db, e: Error)
    requires Apply(before, s) == Failure(e)
    ensures Done(before, Plan([s] + rest.statements, rest.outcome), after, Failure(e))
  {
  }

  lemma DoneOne(before: Db, s: Statement, reply: Reply, after: Db, r: Outcome)
    requires Done(before, Plan([s], Success(reply)), after, r)
    ensures r.Success? ==> Ran(before, s, after, Success(()))
    ensures r.Failure? ==> Apply(before, s) == Failure(r.error)
  {
    CommitOne(before, s, reply);
  }

  // ----- The loop of a whole-reference revocation -------------------------------------------

  /** After `i` rows: what is done and what the remaining rows will do add up to the whole loop. */
  ghost predicate LoopRan(env: Env, draw: Draw, versions: map<VersionKey, VersionRow>, rows: seq<VersionKey>, i: nat,
                          before: Db, current: Db, revoked: seq<Metadata>)
    requires i <= |rows| && forall k :: k in rows ==> k in versions
  {
    var whole, rest := RevokeRows(env, draw, versions, rows, 0), RevokeRows(env, draw, versions, rows, i);
    && ApplyAll(before, whole.statements) == ApplyAll(current, rest.statements)
    && whole.outcome == if rest.outcome.Failure? then rest.outcome else Success(revoked + rest.outcome.value)
  }

  lemma LoopStarts(env: Env, draw: Draw, versions: map<VersionKey, VersionRow>, rows: seq<VersionKey>, before: Db)
    requires forall k :: k in rows ==> k in versions
    ensures LoopRan(env, draw, versions, rows, 0, before, before, [])
  {
    var whole := RevokeRows(env, draw, versions, rows, 0);
    if whole.outcome.Success? {
      assert [] + whole.outcome.value == whole.outcome.value;
    }
  }

  lemma LoopSkipsOne(env: Env, draw: Draw, versions: map<VersionKey, VersionRow>, rows: seq<VersionKey>, i: nat,
                     before: Db, current: Db, revoked: seq<Metadata>, m: Metadata)
    requires i < |rows| && forall k :: k in rows ==> k in versions
    requires LoopRan(env, draw, versions, rows, i, before, current, revoked)
    requires MetadataFromRow(rows[i], versions[rows[i]]) == Some(m) && m.status == Revoked
    ensures LoopRan(env, draw, versions, rows, i + 1, before, current, revoked + [m])
  {
    hide MetadataFromRow, DecryptRow, ApplyAll;
    var rest := RevokeRows(env, draw, versions, rows, i + 1);
    if rest.outcome.Success? {
      assert revoked + ([m] + rest.outcome.value) == revoked + [m] + rest.outcome.value;
    }
  }

  lemma LoopRevokesOne(env: Env, draw: Draw, versions: map<VersionKey, VersionRow>, rows: seq<VersionKey>, i: nat,
                       before: Db, current: Db, next: Db, revoked: seq<Metadata>, m: Metadata, value: Bytes)
    requires i < |rows| && forall k :: k in rows ==> k in versions
    requires LoopRan(env, draw, versions, rows, i, before, current, revoked)
    requires MetadataFromRow(rows[i], versions[rows[i]]) == Some(m) && m.status != Revoked
    requires DecryptRow(env, rows[i], versions[rows[i]]) == Success(value)
    requires Ran(current, RevokeUpdate(env, m, draw.nonce(i), value, draw.now), next, Success(()))
    ensures LoopRan(env, draw, versions, rows, i + 1, before, next, revoked + [AsRevoked(m, draw.now)])
  {
    hide MetadataFromRow, DecryptRow, Apply, RevokeUpdate;
    var rest := RevokeRows(env, draw, versions, rows, i + 1);
    var update := RevokeUpdate(env, m, draw.nonce(i), value, draw.now);
    assert ([update] + rest.statements)[1..] == rest.statements;
    if rest.outcome.Success? {
      assert revoked + ([AsRevoked(m, draw.now)] + rest.outcome.value)
             == revoked + [AsRevoked(m, draw.now)] + rest.outcome.value;
    }
  }

  /** A row that does not read or decrypt ends the loop, and nothing was wrong with what ran before. */
  lemma LoopFails(env: Env, draw: Draw, versions: map<VersionKey, VersionRow>, rows: seq<VersionKey>, i: nat,
                  before: Db, current: Db, revoked: seq<Metadata>, e: Error)
    requires i < |rows| && forall k :: k in rows ==> k in versions
    requires LoopRan(env, draw, versions, rows, i, before, current, revoked)
    requires var m := MetadataFromRow(rows[i], versions[rows[i]]);
             if m.None? then e == UnreadableRow
             else m.value.status != Revoked && DecryptRow(env, rows[i], versions[rows[i]]) == Failure(e)
    ensures var whole := RevokeRows(env, draw, versions, rows, 0);
            whole.outcome == Failure(e) && ApplyAll(before, whole.statements) == Success(current)
  {
    hide MetadataFromRow, DecryptRow;
  }

  lemma LoopEnds(env: Env, draw: Draw, versions: map<VersionKey, VersionRow>, rows: seq<VersionKey>,
                 before: Db, current: Db, revoked: seq<Metadata>)
    requires forall k :: k in rows ==> k in versions
    requires LoopRan(env, draw, versions, rows, |rows|, before, current, revoked)
    ensures var whole := RevokeRows(env, draw, versions, rows, 0);
            whole.outcome == Success(revoked) && ApplyAll(before, whole.statements) == Success(current)
  {
    assert revoked + [] == revoked;
  }

  /** One SQLite connection: the five tables as its statements see them, and what a rollback restores. */
  class Database {
    var versions: map<VersionKey, VersionRow>
    var pins: map<CorrelationKey, Pin>
    var generations: map<CorrelationKey, Generation>
    var revocations: map<CorrelationKey, Revocation>
    var audit: map<string, AuditRecord>
    var journal: Db

    function Contents(): Db
      reads this
    {
      Db(versions, Book(pins, generations, revocations, audit))
    }

    ghost predicate Valid()
      reads this
    {
      SchemaHolds(Contents()) && SchemaHolds(journal)
    }

    constructor ()
      ensures Valid() && Contents() == EMPTY_DB
    {
      versions, pins, generations, revocations, audit := map[], map[], map[], map[], map[];
      journal := EMPTY_DB;
    }

    method Begin()
      requires Valid()
      modifies this`journal
      ensures Valid() && journal == Contents()
    {
      journal := Contents();
    }

    method Restore()
      requires Valid()
      modifies this
      ensures Valid() && journal == old(journal) && Contents() == old(journal)
    {
      versions, pins := journal.versions, journal.book.pins;
      generations, revocations, audit := journal.book.generations, journal.book.revocations, journal.book.audit;
    }

    /** The end of the `with connection` block: an exception or a failed commit rolls back. */
    method End(outcome: Outcome, commits: bool, ghost plan: Plan) returns (r: Outcome)
      requires Valid() && Done(journal, plan, Contents(), outcome)
      modifies this
      ensures Valid() && Returned(old(journal), plan, commits, Contents(), r)
    {
      r := outcome;
      DoneReturns(journal, plan, commits, Contents(), outcome);
      if outcome.Failure? || !commits {
        Restore();
        if outcome.Success? {
          r := Failure(StorageFailure);
        }
      }
    }

    // ----- Statements -----------------------------------------------------------------------

    method InsertVersion(key: VersionKey, row: VersionRow) returns (r: Result<(), Error>)
      requires Valid()
      modifies this`versions
      ensures Valid() && Ran(old(Contents()), Statement.InsertVersion(key, row), Contents(), r)
    {
      ApplyKeepsSchema(Contents(), Statement.InsertVersion(key, row));
      if key in versions || NumberTaken(versions, SecretOf(key), row.versionNumber) {
        return Failure(AlreadyExists);
      }
      versions := versions[key := row];
      r := Success(());
    }

    method UpdateVersion(key: VersionKey, status: string, nonce: Bytes, ciphertext: Ciphertext, revokedAt: string)
      requires Valid()
      modifies this`versions
      ensures Valid()
      ensures Ran(old(Contents()), Statement.UpdateVersion(key, status, nonce, ciphertext, revokedAt), Contents(),
                  Success(()))
    {
      ApplyKeepsSchema(Contents(), Statement.UpdateVersion(key, status, nonce, ciphertext, revokedAt));
      if key in versions {
        versions := versions[key := versions[key].(
          status := status, nonce := nonce, ciphertext := ciphertext, revokedAt := Some(revokedAt))];
      }
    }

    method InsertPin(at: CorrelationKey, pin: Pin) returns (r: Result<(), Error>)
      requires Valid()
      modifies this`pins
      ensures Valid() && Ran(old(Contents()), Statement.InsertPin(at, pin), Contents(), r)
    {
      ApplyKeepsSchema(Contents(), Statement.InsertPin(at, pin));
      if at in pins || VersionKey(at.workspaceId, pin.secretId, pin.versionId) !in versions {
        return Failure(IntegrityViolation);
      }
      pins := pins[at := pin];
      r := Success(());
    }

    method InsertGeneration(at: CorrelationKey, g: Generation) returns (r: Result<(), Error>)
      requires Valid()
      modifies this`generations
      ensures Valid() && Ran(old(Contents()), Statement.InsertGeneration(at, g), Contents(), r)
    {
      ApplyKeepsSchema(Contents(), Statement.InsertGeneration(at, g));
      if at in generations || SecretGenerated(generations, at.workspaceId, g.secretId)
         || VersionKey(at.workspaceId, g.secretId, g.versionId) !in versions {
        return Failure(IntegrityViolation);
      }
      generations := generations[at := g];
      r := Success(());
    }

    method InsertRevocation(at: CorrelationKey, revocation: Revocation) returns (r: Result<(), Error>)
      requires Valid()
      modifies this`revocations
      ensures Valid() && Ran(old(Contents()), Statement.InsertRevocation(at, revocation), Contents(), r)
    {
      ApplyKeepsSchema(Contents(), Statement.InsertRevocation(at, revocation));
      if at in revocations
         || VersionRevocationRecorded(revocations, at.workspaceId, revocation.secretId, revocation.versionId)
         || VersionKey(at.workspaceId, revocation.secretId, revocation.versionId) !in versions {
        return Failure(IntegrityViolation);
      }
      revocations := revocations[at := revocation];
      r := Success(());
    }

    method InsertAudit(eventId: string, record: AuditRecord) returns (r: Result<(), Error>)
      requires Valid()
      modifies this`audit
      ensures Valid() && Ran(old(Contents()), Statement.InsertAudit(eventId, record), Contents(), r)
    {
      ApplyKeepsSchema(Contents(), Statement.InsertAudit(eventId, record));
      if eventId in audit {
        return Failure(AuditUnavailable);
      }
      audit := audit[eventId := record];
      r := Success(());
    }

    // ----- Queries --------------------------------------------------------------------------

    /** `_latest_row`: descending by number, limit one. */
    method SelectLatest(secret: SecretKey) returns (k: Option<VersionKey>)
      requires Valid()
      ensures k == LatestRow(versions, secret)
      ensures k.Some? ==> k.value in versions && SecretOf(k.value) == secret
    {
      if latest :| latest in versions && IsLatest(versions, secret, latest) {
        k := Some(latest);
        LatestUnique(versions, secret, latest, LatestRow(versions, secret).value);
      } else {
        k := None;
      }
    }

    /** `_select_row_with_connection`. */
    method Select(secret: SecretKey, version: Option<string>) returns (k: Option<VersionKey>)
      requires Valid()
      ensures k == SelectRow(versions, secret, version)
      ensures k.Some? ==> k.value in versions && SecretOf(k.value) == secret
    {
      if version.None? {
        k := SelectLatest(secret);
      } else {
        var key := VersionKey(secret.workspaceId, secret.secretId, version.value);
        k := if key in versions then Some(key) else None;
      }
    }

    /** `_all_rows`: ascending by number. */
    method SelectAll(secret: SecretKey) returns (ks: seq<VersionKey>)
      requires Valid()
      ensures ks == Ascending(versions, RowsOf(versions, secret))
    {
      ks := [];
      var rows := RowsOf(versions, secret);
      while rows != {}
        invariant forall r :: r in rows ==> r in versions && SecretOf(r) == secret
        invariant ks + Ascending(versions, rows) == Ascending(versions, RowsOf(versions, secret))
        decreases |rows|
      {
        FirstExists(versions, rows);
        var k :| k in rows && IsFirst(versions, rows, k);
        FirstUnique(versions, rows, secret, k, Ascending(versions, rows)[0]);
        ks, rows := ks + [k], rows - {k};
      }
    }
  }

  class SqliteAuditStore {
    const database: Database

    constructor (database: Database)
      ensures this.database == database
    {
      this.database := database;
    }

    /** `append_in_transaction`: one insert in the caller's transaction. */
    method AppendInTransaction(draw: Draw, record: AuditRecord) returns (r: Result<(), Error>)
      requires database.Valid()
      modifies database`audit
      ensures database.Valid()
      ensures Ran(old(database.Contents()), InsertAudit(draw.eventId, record), database.Contents(), r)
    {
      r := database.InsertAudit(draw.eventId, record);
    }

    /** `append`: one insert in a transaction of its own; every storage error becomes `AuditUnavailable`. */
    method Append(env: Env, draw: Draw, record: AuditRecord, commits: bool) returns (r: Outcome)
      requires database.Valid()
      modifies database
      ensures database.Valid()
      ensures var (after, outcome) := Execute(env, draw, AppendAudit(record), old(database.Contents()));
              if commits then database.Contents() == after && r == outcome
              else database.Contents() == old(database.Contents()) && r == Failure(AuditUnavailable)
    {
      database.Begin();
      ghost var before := database.Contents();
      var inserted := database.InsertAudit(draw.eventId, record);
      CommitOne(before, InsertAudit(draw.eventId, record), Appended);
      if inserted.Failure? || !commits {
        database.Restore();
        return Failure(AuditUnavailable);
      }
      r := Success(Appended);
    }
  }

  /** `_clean_labels`: copies the labels it accepts, and rejects as a whole otherwise. */
  method CleanLabels(labels: Labels) returns (r: Result<Labels, Error>)
    ensures r == if LabelsClean(labels) then Success(labels) else Failure(MetadataInvalid)
  {
    if |labels| > MAX_LABELS {
      return Failure(MetadataInvalid);
    }
    var cleaned: Labels, pending := map[], labels.Keys;
    while pending != {}
      invariant pending <= labels.Keys && cleaned.Keys == labels.Keys - pending
      invariant forall k :: k in cleaned ==> cleaned[k] == labels[k] && LabelBounded(k, labels[k])
      decreases |pending|
    {
      var key :| key in pending;
      if key == "" || |key| > MAX_LABEL_KEY_CHARS || |labels[key]| > MAX_LABEL_VALUE_CHARS {
        assert !LabelBounded(key, labels[key]);
        return Failure(MetadataInvalid);
      }
      cleaned, pending := cleaned[key := labels[key]], pending - {key};
    }
    assert cleaned == labels;
    r := Success(cleaned);
  }

  class EncryptedSecretStore {
    const database: Database
    const env: Env

    constructor (database: Database, env: Env)
      ensures this.database == database && this.env == env
    {
      this.database, this.env := database, env;
    }

    // ----- Shared steps ---------------------------------------------------------------------

    /** `_insert_version`. */
    method InsertVersion(draw: Draw, workspaceId: string, secretId: string, value: Bytes, labels: Labels, number: int)
      returns (r: Result<Metadata, Error>)
      requires database.Valid()
      modifies database`versions
      ensures database.Valid()
      ensures Done(old(database.Contents()), InsertPlan(env, draw, workspaceId, secretId, value, labels, number),
                   database.Contents(), if r.Success? then Success(Stored(r.value)) else Failure(r.error))
      ensures r.Success? ==> r.value == FreshMetadata(env, draw, workspaceId, secretId, labels, number)
    {
      var cleaned := CleanLabels(labels);
      if cleaned.Failure? {
        return Failure(cleaned.error);
      }
      var m := Metadata(workspaceId, secretId, draw.versionId, number, Active, ALGORITHM,
                        env.primitives.fingerprint(env.master.key), env.master.version, cleaned.value, draw.now, None);
      var nonce := draw.nonce(0);
      var row := SealedRow(env.master.key, nonce, m, value);
      CommitOne(database.Contents(), InsertOf(env, draw, m, value), Stored(m));
      var inserted := database.InsertVersion(KeyOf(m), row);
      if inserted.Failure? {
        return Failure(inserted.error);
      }
      r := Success(m);
    }

    /** `_revoke_row` for a readable active row: decrypt, seal again as revoked, update in place. */
    method RevokeRow(k: VersionKey, row: VersionRow, m: Metadata, nonce: Bytes, revokedAt: string)
      returns (r: Result<Metadata, Error>)
      requires database.Valid() && MetadataFromRow(k, row) == Some(m)
      modifies database`versions
      ensures database.Valid()
      ensures match DecryptRow(env, k, row)
              case Failure(e) => r == Failure(e) && database.Contents() == old(database.Contents())
              case Success(value) =>
                && r == Success(AsRevoked(m, revokedAt))
                && Ran(old(database.Contents()), RevokeUpdate(env, m, nonce, value, revokedAt), database.Contents(),
                       Success(()))
    {
      var plaintext := DecryptRow(env, k, row);
      if plaintext.Failure? {
        return Failure(plaintext.error);
      }
      var revoked := AsRevoked(m, revokedAt);
      var ciphertext := Encrypt(env.master.key, nonce, plaintext.value, Aad(revoked));
      database.UpdateVersion(KeyOf(m), StatusText(Revoked), nonce, ciphertext, revokedAt);
      r := Success(revoked);
    }

    // ----- Create, rotate -------------------------------------------------------------------

    method CreateSecret(draw: Draw, workspaceId: string, secretId: string, value: Bytes, labels: Labels, commits: bool)
      returns (r: Outcome)
      requires database.Valid()
      modifies database
      ensures database.Valid()
      ensures Returned(old(database.Contents()),
                       PlanOf(env, draw, Create(workspaceId, secretId, value, labels), old(database.Contents())),
                       commits, database.Contents(), r)
    {
      hide Done, Returned, SchemaHolds;
      database.Begin();
      ghost var plan := CreatePlan(env, draw, workspaceId, secretId, value, labels);
      var inserted := InsertVersion(draw, workspaceId, secretId, value, labels, 1);
      r := database.End(if inserted.Success? then Success(Stored(inserted.value)) else Failure(inserted.error), commits,
                        plan);
    }

    method RotateInTransaction(draw: Draw, workspaceId: string, secretId: string, value: Bytes, labels: Labels,
                               expectedIntent: Option<string>) returns (r: Outcome)
      requires database.Valid()
      modifies database`versions
      ensures database.Valid()
      ensures Done(old(database.Contents()),
                   RotatePlan(env, draw, old(database.versions), workspaceId, secretId, value, labels, expectedIntent),
                   database.Contents(), r)
    {
      hide Done, SchemaHolds, InsertPlan, FreshMetadata, LatestRow, MetadataFromRow;
      var latest := database.SelectLatest(SecretKey(workspaceId, secretId));
      DoneNone(database.Contents(), Failure(Missing));
      DoneNone(database.Contents(), Failure(UnreadableRow));
      DoneNone(database.Contents(), Failure(IntentMismatch));
      if latest.None? {
        return Failure(Missing);
      }
      var row := database.versions[latest.value];
      var m := MetadataFromRow(latest.value, row);
      if m.None? {
        return Failure(UnreadableRow);
      }
      if expectedIntent.Some? && Label(m.value.labels, "intent") != expectedIntent {
        return Failure(IntentMismatch);
      }
      NumberReadsBack(latest.value, row);
      var inserted := InsertVersion(draw, workspaceId, secretId, value, labels, row.versionNumber + 1);
      r := if inserted.Success? then Success(Stored(inserted.value)) else Failure(inserted.error);
    }

    method RotateSecret(draw: Draw, workspaceId: string, secretId: string, value: Bytes, labels: Labels,
                        expectedIntent: Option<string>, commits: bool) returns (r: Outcome)
      requires database.Valid()
      modifies database
      ensures database.Valid()
      ensures Returned(old(database.Contents()),
                       PlanOf(env, draw, Rotate(workspaceId, secretId, value, labels, expectedIntent),
                              old(database.Contents())),
                       commits, database.Contents(), r)
    {
      hide Done, Returned, SchemaHolds, RotatePlan;
      database.Begin();
      ghost var plan := RotatePlan(env, draw, database.versions, workspaceId, secretId, value, labels, expectedIntent);
      var outcome := RotateInTransaction(draw, workspaceId, secretId, value, labels, expectedIntent);
      r := database.End(outcome, commits, plan);
    }

    // ----- Revoke ---------------------------------------------------------------------------

    method RevokeInTransaction(draw: Draw, workspaceId: string, secretId: string) returns (r: Outcome)
      requires database.Valid()
      modifies database`versions
      ensures database.Valid()
      ensures Done(old(database.Contents()),
                   RevokeSecretPlan(env, draw, old(database.versions), workspaceId, secretId), database.Contents(), r)
    {
      hide SchemaHolds, MetadataFromRow, DecryptRow, RevokeUpdate, RevokeRows, Ran, LoopRan;
      ghost var before := database.Contents();
      var fetched := database.versions;
      var rows := database.SelectAll(SecretKey(workspaceId, secretId));
      if rows == [] {
        return Failure(Missing);
      }
      var revoked: seq<Metadata> := [];
      LoopStarts(env, draw, fetched, rows, before);
      for i := 0 to |rows|
        invariant database.Valid()
        invariant LoopRan(env, draw, fetched, rows, i, before, database.Contents(), revoked)
      {
        ghost var current := database.Contents();
        var m := MetadataFromRow(rows[i], fetched[rows[i]]);
        if m.None? {
          LoopFails(env, draw, fetched, rows, i, before, current, revoked, UnreadableRow);
          return Failure(UnreadableRow);
        }
        if m.value.status == Revoked {
          LoopSkipsOne(env, draw, fetched, rows, i, before, current, revoked, m.value);
          revoked := revoked + [m.value];
        } else {
          var one := RevokeRow(rows[i], fetched[rows[i]], m.value, draw.nonce(i), draw.now);
          if one.Failure? {
            LoopFails(env, draw, fetched, rows, i, before, current, revoked, one.error);
            return Failure(one.error);
          }
          LoopRevokesOne(env, draw, fetched, rows, i, before, current, database.Contents(), revoked, m.value,
                         DecryptRow(env, rows[i], fetched[rows[i]]).value);
          revoked := revoked + [one.value];
        }
      }
      LoopEnds(env, draw, fetched, rows, before, database.Contents(), revoked);
      r := Success(RevokedAll(revoked));
    }

    method RevokeSecret(draw: Draw, workspaceId: string, secretId: string, commits: bool) returns (r: Outcome)
      requires database.Valid()
      modifies database
      ensures database.Valid()
      ensures Returned(old(database.Contents()),
                       PlanOf(env, draw, Request.RevokeSecret(workspaceId, secretId), old(database.Contents())),
                       commits, database.Contents(), r)
    {
      hide Done, Returned, SchemaHolds, RevokeSecretPlan;
      database.Begin();
      ghost var plan := RevokeSecretPlan(env, draw, database.versions, workspaceId, secretId);
      var outcome := RevokeInTransaction(draw, workspaceId, secretId);
      r := database.End(outcome, commits, plan);
    }

    /** The effects of a first exact-version revocation: update, record, audit. */
    method Retire(audit: SqliteAuditStore, draw: Draw, k: VersionKey, row: VersionRow, m: Metadata, at: CorrelationKey,
                  callerSubject: string, providerId: string) returns (r: Outcome)
      requires database.Valid() && audit.database == database && MetadataFromRow(k, row) == Some(m)
      modifies database`versions, database`revocations, database`audit
      ensures database.Valid()
      ensures match DecryptRow(env, k, row)
              case Failure(e) => r == Failure(e)
              case Success(value) =>
                Done(old(database.Contents()), RetirePlan(env, draw, m, value, at, callerSubject, providerId),
                     database.Contents(), r)
    {
      hide SchemaHolds, DecryptRow, RevokeUpdate, Ran, Done, MetadataFromRow;
      ghost var start := database.Contents();
      var revoked := RevokeRow(k, row, m, draw.nonce(0), draw.now);
      if revoked.Failure? {
        return Failure(revoked.error);
      }
      ghost var value := DecryptRow(env, k, row).value;
      ghost var plan := RetirePlan(env, draw, m, value, at, callerSubject, providerId);
      ghost var updated := database.Contents();
      var record := Revocation(m.secretId, m.versionId, m.versionNumber, callerSubject, draw.now);
      var recorded := database.InsertRevocation(at, record);
      ghost var inserted := database.Contents();
      var event := AuditOf(draw, providerId, m.workspaceId, m.secretId, Some(m.versionId), Label(m.labels, "intent"),
                           callerSubject, at.correlationId, SecretVersionRevoked);
      r := Success(Stored(revoked.value));
      if recorded.Failure? {
        r := Failure(recorded.error);
      } else {
        var appended := audit.AppendInTransaction(draw, event);
        if appended.Failure? {
          r := Failure(appended.error);
        }
        DoneNone(database.Contents(), plan.outcome);
        RanFirst(inserted, plan.statements[2], database.Contents(), Plan([], plan.outcome), appended,
                 database.Contents(), r);
      }
      assert [plan.statements[2]] + [] == [plan.statements[2]];
      RanFirst(updated, plan.statements[1], inserted, Plan([plan.statements[2]], plan.outcome), recorded,
               database.Contents(), r);
      assert [plan.statements[1]] + [plan.statements[2]] == plan.statements[1..];
      RanFirst(start, plan.statements[0], updated, Plan(plan.statements[1..], plan.outcome), Success(()),
               database.Contents(), r);
      assert [plan.statements[0]] + plan.statements[1..] == plan.statements;
    }

    method RevokeVersionInTransaction(audit: SqliteAuditStore, draw: Draw, workspaceId: string, secretId: string,
                                      versionId: string, versionNumber: int, callerSubject: string,
                                      correlationId: string, providerId: string) returns (r: Outcome)
      requires database.Valid() && audit.database == database
      modifies database`versions, database`revocations, database`audit
      ensures database.Valid()
      ensures Done(old(database.Contents()),
                   RevokeVersionPlan(env, draw, old(database.versions), old(database.revocations), workspaceId,
                                     secretId, versionId, versionNumber, callerSubject, correlationId, providerId),
                   database.Contents(), r)
    {
      hide SchemaHolds, MetadataFromRow, DecryptRow, Done, Ran, RetirePlan, VersionRevocationRecorded, Apply;
      ghost var before := database.Contents();
      var at := CorrelationKey(workspaceId, correlationId);
      var k := VersionKey(workspaceId, secretId, versionId);
      DoneNone(before, Failure(RevocationConflict));
      DoneNone(before, Failure(Missing));
      DoneNone(before, Failure(UnreadableRow));
      DoneNone(before, Failure(Error.SecretRevoked));
      if at in database.revocations {
        var existing := database.revocations[at];
        if existing.secretId != secretId || existing.versionId != versionId || existing.versionNumber != versionNumber
           || existing.callerSubject != callerSubject {
          return Failure(RevocationConflict);
        }
        var selected := database.Select(SecretKey(workspaceId, secretId), Some(versionId));
        if selected.None? {
          return Failure(Missing);
        }
        var m := MetadataFromRow(k, database.versions[k]);
        if m.None? {
          return Failure(UnreadableRow);
        }
        if m.value.versionNumber != versionNumber || m.value.status != Revoked {
          return Failure(RevocationConflict);
        }
        var event := AuditOf(draw, providerId, workspaceId, secretId, Some(versionId), Label(m.value.labels, "intent"),
                             callerSubject, correlationId, SecretVersionRevocationReplayed);
        var appended := audit.AppendInTransaction(draw, event);
        r := if appended.Failure? then Failure(appended.error) else Success(Stored(m.value));
        DoneNone(database.Contents(), Success(Stored(m.value)));
        RanFirst(before, InsertAudit(draw.eventId, event), database.Contents(), Plan([], Success(Stored(m.value))),
                 appended, database.Contents(), r);
        assert [InsertAudit(draw.eventId, event)] + [] == [InsertAudit(draw.eventId, event)];
        return;
      }
      if VersionRevocationRecorded(database.revocations, workspaceId, secretId, versionId) {
        return Failure(RevocationConflict);
      }
      var selected := database.Select(SecretKey(workspaceId, secretId), Some(versionId));
      if selected.None? {
        return Failure(Missing);
      }
      var m := MetadataFromRow(k, database.versions[k]);
      if m.None? {
        return Failure(UnreadableRow);
      }
      if m.value.versionNumber != versionNumber {
        return Failure(RevocationConflict);
      }
      if m.value.status == Revoked {
        return Failure(Error.SecretRevoked);
      }
      r := Retire(audit, draw, k, database.versions[k], m.value, at, callerSubject, providerId);
      if DecryptRow(env, k, before.versions[k]).Failure? {
        DoneNone(database.Contents(), r);
        FailedPlan(before, database.Contents(), r);
      }
    }

    method RevokeSecretVersion(audit: SqliteAuditStore, draw: Draw, workspaceId: string, secretId: string,
                               versionId: string, versionNumber: int, callerSubject: string, correlationId: string,
                               providerId: string, commits: bool) returns (r: Outcome)
      requires database.Valid() && audit.database == database
      modifies database
      ensures database.Valid()
      ensures Returned(old(database.Contents()),
                       PlanOf(env, draw,
                              RevokeVersion(workspaceId, secretId, versionId, versionNumber, callerSubject,
                                            correlationId, providerId), old(database.Contents())),
                       commits, database.Contents(), r)
    {
      hide Done, Returned, SchemaHolds, RevokeVersionPlan;
      database.Begin();
      ghost var plan := RevokeVersionPlan(env, draw, database.versions, database.revocations, workspaceId, secretId,
                                          versionId, versionNumber, callerSubject, correlationId, providerId);
      var outcome := RevokeVersionInTransaction(audit, draw, workspaceId, secretId, versionId, versionNumber,
                                                callerSubject, correlationId, providerId);
      r := database.End(outcome, commits, plan);
    }

    // ----- Reads ----------------------------------------------------------------------------

    method ReadMetadata(workspaceId: string, secretId: string, version: Option<string>) returns (r: Outcome)
      requires database.Valid()
      ensures Commit(database.Contents(), ReadMetadataPlan(database.versions, workspaceId, secretId, version))
              == (database.Contents(), r)
    {
      hide SchemaHolds, SelectRow, MetadataFromRow;
      var selected := database.Select(SecretKey(workspaceId, secretId), version);
      if selected.None? {
        return Failure(Missing);
      }
      var m := MetadataFromRow(selected.value, database.versions[selected.value]);
      r := if m.None? then Failure(UnreadableRow) else Success(Stored(m.value));
    }

    method ResolveSecret(workspaceId: string, secretId: string, version: Option<string>) returns (r: Outcome)
      requires database.Valid()
      ensures Commit(database.Contents(), ResolvePlan(env, database.versions, workspaceId, secretId, version))
              == (database.Contents(), r)
    {
      hide SchemaHolds, SelectRow, MetadataFromRow, DecryptRow;
      var selected := database.Select(SecretKey(workspaceId, secretId), version);
      if selected.None? {
        return Failure(Missing);
      }
      var row := database.versions[selected.value];
      var m := MetadataFromRow(selected.value, row);
      if m.None? {
        return Failure(UnreadableRow);
      }
      if m.value.status == Revoked {
        return Failure(Error.SecretRevoked);
      }
      var value := DecryptRow(env, selected.value, row);
      r := if value.Failure? then Failure(value.error) else Success(Resolved(m.value, value.value));
    }

    // ----- Resolve for use ------------------------------------------------------------------

    /** The second read of `resolve_secret_for_use`: the selected row, seen after the pin is inserted. */
    method ReadSelected(workspaceId: string, secretId: string, versionId: string, intent: string) returns (r: Outcome)
      requires database.Valid()
      ensures r == ReadForUse(env, database.versions, VersionKey(workspaceId, secretId, versionId), intent)
    {
      hide SchemaHolds, MetadataFromRow, DecryptRow;
      var selected := database.Select(SecretKey(workspaceId, secretId), Some(versionId));
      if selected.None? {
        return Failure(Missing);
      }
      var row := database.versions[selected.value];
      var m := MetadataFromRow(selected.value, row);
      if m.None? {
        return Failure(UnreadableRow);
      }
      if m.value.status == Revoked {
        return Failure(Error.SecretRevoked);
      }
      if Label(m.value.labels, "intent") != Some(intent) {
        return Failure(IntentMismatch);
      }
      var value := DecryptRow(env, selected.value, row);
      r := if value.Failure? then Failure(value.error) else Success(Resolved(m.value, value.value));
    }

    method ResolveInTransaction(draw: Draw, workspaceId: string, secretId: string, intent: string,
                                callerSubject: string, correlationId: string, version: Option<string>)
      returns (r: Outcome)
      requires database.Valid()
      modifies database`pins
      ensures database.Valid()
      ensures Done(old(database.Contents()),
                   ResolveForUsePlan(env, draw, old(database.versions), old(database.pins), workspaceId, secretId,
                                     intent, callerSubject, correlationId, version),
                   database.Contents(), r)
    {
      hide SchemaHolds, MetadataFromRow, ReadForUse, SelectRow, Done, Ran, Apply;
      ghost var before := database.Contents();
      var at := CorrelationKey(workspaceId, correlationId);
      DoneNone(before, Failure(ResolutionConflict));
      DoneNone(before, Failure(Missing));
      DoneNone(before, Failure(UnreadableRow));
      DoneNone(before, Failure(Error.SecretRevoked));
      DoneNone(before, Failure(IntentMismatch));
      if at in database.pins {
        var selection := database.pins[at];
        if selection.secretId != secretId || selection.intent != intent || selection.callerSubject != callerSubject
           || (version.Some? && version.value != selection.versionId) {
          return Failure(ResolutionConflict);
        }
        r := ReadSelected(workspaceId, secretId, selection.versionId, intent);
        DoneNone(before, r);
        return;
      }
      var selected := database.Select(SecretKey(workspaceId, secretId), version);
      if selected.None? {
        return Failure(Missing);
      }
      var m := MetadataFromRow(selected.value, database.versions[selected.value]);
      if m.None? {
        return Failure(UnreadableRow);
      }
      if m.value.status == Revoked {
        return Failure(Error.SecretRevoked);
      }
      if Label(m.value.labels, "intent") != Some(intent) {
        return Failure(IntentMismatch);
      }
      var pin := Pin(secretId, intent, callerSubject, m.value.versionId, draw.now);
      var pinned := database.InsertPin(at, pin);
      ghost var use := ReadForUse(env, before.versions, VersionKey(workspaceId, secretId, m.value.versionId), intent);
      if pinned.Failure? {
        r := Failure(pinned.error);
      } else {
        r := ReadSelected(workspaceId, secretId, m.value.versionId, intent);
      }
      DoneNone(database.Contents(), use);
      RanFirst(before, InsertPin(at, pin), database.Contents(), Plan([], use), pinned, database.Contents(), r);
      assert [InsertPin(at, pin)] + [] == [InsertPin(at, pin)];
    }

    method ResolveSecretForUse(draw: Draw, workspaceId: string, secretId: string, intent: string, callerSubject: string,
                               correlationId: string, version: Option<string>, commits: bool) returns (r: Outcome)
      requires database.Valid()
      modifies database
      ensures database.Valid()
      ensures Returned(old(database.Contents()),
                       PlanOf(env, draw, ResolveForUse(workspaceId, secretId, intent, callerSubject, correlationId,
                                                       version),
                              old(database.Contents())),
                       commits, database.Contents(), r)
    {
      hide Done, Returned, SchemaHolds, ResolveForUsePlan;
      database.Begin();
      ghost var plan := ResolveForUsePlan(env, draw, database.versions, database.pins, workspaceId, secretId, intent,
                                          callerSubject, correlationId, version);
      var outcome := ResolveInTransaction(draw, workspaceId, secretId, intent, callerSubject, correlationId, version);
      r := database.End(outcome, commits, plan);
    }

    // ----- Generate -------------------------------------------------------------------------

    /** `_delegation_generation_from_row`. */
    method GenerationFromRow(at: CorrelationKey, g: Generation, expectedIntent: string)
      returns (r: Result<GeneratedKey, Error>)
      requires database.Valid()
      ensures r == ReadGeneration(env, database.versions, at, g, expectedIntent)
    {
      hide SchemaHolds, MetadataFromRow, DecryptRow, MaterialMatches;
      var selected := database.Select(SecretKey(at.workspaceId, g.secretId), Some(g.versionId));
      if selected.None? {
        return Failure(Missing);
      }
      var row := database.versions[selected.value];
      var m := MetadataFromRow(selected.value, row);
      if m.None? {
        return Failure(Tampered);
      }
      if m.value.status == Revoked {
        return Failure(Error.SecretRevoked);
      }
      if |g.publicPem| > MAX_PUBLIC_PEM_CHARS || |g.keyId| > MAX_KEY_ID_CHARS {
        return Failure(Tampered);
      }
      if m.value.labels != FamilyLabels(expectedIntent, g.purpose, g.issuer, g.keyId)
         || g.algorithm != DELEGATION_KEY_ALGORITHM {
        return Failure(Tampered);
      }
      var privatePem := DecryptRow(env, selected.value, row);
      if privatePem.Failure? {
        return Failure(privatePem.error);
      }
      if !MaterialMatches(env.primitives, privatePem.value, g.publicPem, g.keyId) {
        return Failure(Tampered);
      }
      r := Success(GeneratedKey(m.value, g.secretReference, g.purpose, g.issuer, at.correlationId, g.keyId, g.algorithm,
                                g.publicPem, true));
    }

    method GenerateInTransaction(audit: SqliteAuditStore, draw: Draw, workspaceId: string, secretId: string,
                                 secretReference: string, purpose: string, intent: string, issuer: string,
                                 callerSubject: string, correlationId: string, providerId: string) returns (r: Outcome)
      requires database.Valid() && audit.database == database && IntentFor(purpose) == Some(intent)
      modifies database`versions, database`generations, database`audit
      ensures database.Valid()
      ensures Done(old(database.Contents()),
                   GeneratePlan(env, draw, old(database.versions), old(database.generations), workspaceId, secretId,
                                secretReference, purpose, intent, issuer, callerSubject, correlationId, providerId),
                   database.Contents(), r)
    {
      hide SchemaHolds, ReadGeneration, LabelsClean, Done, Ran, IntentFor, Apply, InsertOf, FamilyLabels;
      ghost var before := database.Contents();
      var at := CorrelationKey(workspaceId, correlationId);
      DoneNone(before, Failure(GenerationConflict));
      DoneNone(before, Failure(MetadataInvalid));
      if at in database.generations {
        var existing := database.generations[at];
        if existing.secretId != secretId || existing.secretReference != secretReference || existing.purpose != purpose
           || existing.issuer != issuer || existing.callerSubject != callerSubject {
          return Failure(GenerationConflict);
        }
        var result := GenerationFromRow(at, existing, intent);
        if result.Failure? {
          DoneNone(before, Failure(result.error));
          return Failure(result.error);
        }
        var event := AuditOf(draw, providerId, workspaceId, secretId, Some(result.value.metadata.versionId),
                             Some(intent), callerSubject, correlationId, DelegationKeyGenerationReplayed);
        var appended := audit.AppendInTransaction(draw, event);
        r := if appended.Failure? then Failure(appended.error) else Success(Generated(result.value));
        DoneNone(database.Contents(), Success(Generated(result.value)));
        RanFirst(before, InsertAudit(draw.eventId, event), database.Contents(),
                 Plan([], Success(Generated(result.value))), appended, database.Contents(), r);
        assert [InsertAudit(draw.eventId, event)] + [] == [InsertAudit(draw.eventId, event)];
        return;
      }
      var privatePem, publicPem := env.primitives.privatePem(draw.seed), env.primitives.publicPem(draw.seed);
      var keyId := DelegationKeyId(env.primitives, publicPem);
      var labels := FamilyLabels(intent, purpose, issuer, keyId);
      ghost var plan := GeneratePlan(env, draw, before.versions, before.book.generations, workspaceId, secretId,
                                     secretReference, purpose, intent, issuer, callerSubject, correlationId,
                                     providerId);
      var inserted := InsertVersion(draw, workspaceId, secretId, privatePem, labels, 1);
      ghost var stored := database.Contents();
      if !LabelsClean(labels) {
        NotClean(env, draw, workspaceId, secretId, privatePem, labels, before, stored, inserted);
        return Failure(inserted.error);
      }
      var m := FreshMetadata(env, draw, workspaceId, secretId, labels, 1);
      DoneOne(before, plan.statements[0], Stored(m), stored,
              if inserted.Success? then Success(Stored(inserted.value)) else Failure(inserted.error));
      assert [plan.statements[0]] + plan.statements[1..] == plan.statements;
      if inserted.Failure? {
        FailedFirst(before, plan.statements[0], Plan(plan.statements[1..], plan.outcome), stored, inserted.error);
        return Failure(inserted.error);
      }
      var record := Generation(secretId, secretReference, purpose, issuer, callerSubject, inserted.value.versionId,
                               keyId, DELEGATION_KEY_ALGORITHM, publicPem, inserted.value.createdAt);
      var recorded := database.InsertGeneration(at, record);
      ghost var linked := database.Contents();
      r := Success(Generated(GeneratedKey(inserted.value, secretReference, purpose, issuer, correlationId, keyId,
                                          DELEGATION_KEY_ALGORITHM, publicPem, false)));
      if recorded.Failure? {
        r := Failure(recorded.error);
      } else {
        var event := AuditOf(draw, providerId, workspaceId, secretId, Some(inserted.value.versionId), Some(intent),
                             callerSubject, correlationId, DelegationKeyGenerated);
        var appended := audit.AppendInTransaction(draw, event);
        if appended.Failure? {
          r := Failure(appended.error);
        }
        DoneNone(database.Contents(), plan.outcome);
        RanFirst(linked, plan.statements[2], database.Contents(), Plan([], plan.outcome), appended,
                 database.Contents(), r);
      }
      assert [plan.statements[2]] + [] == [plan.statements[2]];
      RanFirst(stored, plan.statements[1], linked, Plan([plan.statements[2]], plan.outcome), recorded,
               database.Contents(), r);
      assert [plan.statements[1]] + [plan.statements[2]] == plan.statements[1..];
      RanFirst(before, plan.statements[0], stored, Plan(plan.statements[1..], plan.outcome), Success(()),
               database.Contents(), r);
    }

    method GenerateDelegationKey(audit: SqliteAuditStore, draw: Draw, workspaceId: string, secretId: string,
                                 secretReference: string, purpose: string, intent: string, issuer: string,
                                 callerSubject: string, correlationId: string, providerId: string, commits: bool)
      returns (r: Outcome)
      requires database.Valid() && audit.database == database
      modifies database
      ensures database.Valid()
      ensures Returned(old(database.Contents()),
                       PlanOf(env, draw,
                              Generate(workspaceId, secretId, secretReference, purpose, intent, issuer, callerSubject,
                                       correlationId, providerId), old(database.Contents())),
                       commits, database.Contents(), r)
    {
      hide Done, Returned, SchemaHolds, GeneratePlan, IntentFor;
      if IntentFor(purpose) != Some(intent) {
        FamilyRejected(env, draw, database.Contents(), workspaceId, secretId, secretReference, purpose, intent, issuer,
                       callerSubject, correlationId, providerId);
        ReturnedFailure(database.Contents(), MetadataInvalid, commits);
        return Failure(MetadataInvalid);
      }
      database.Begin();
      ghost var plan := GeneratePlan(env, draw, database.versions, database.generations, workspaceId, secretId,
                                     secretReference, purpose, intent, issuer, callerSubject, correlationId,
                                     providerId);
      var outcome := GenerateInTransaction(audit, draw, workspaceId, secretId, secretReference, purpose, intent, issuer,
                                           callerSubject, correlationId, providerId);
      r := database.End(outcome, commits, plan);
    }
  }

  lemma ReturnedFailure(before: Db, e: Error, commits: bool)
    ensures Returned(before, Plan([], Failure(e)), commits, before, Failure(e))
  {
  }

  lemma FamilyRejected(env: Env, draw: Draw, db: Db, workspaceId: string, secretId: string, secretReference: string,
                       purpose: string, intent: string, issuer: string, callerSubject: string, correlationId: string,
                       providerId: string)
    requires IntentFor(purpose) != Some(intent)
    ensures GeneratePlan(env, draw, db.versions, db.book.generations, workspaceId, secretId, secretReference, purpose,
                         intent, issuer, callerSubject, correlationId, providerId) == Plan([], Failure(MetadataInvalid))
  {
  }

  lemma FailedPlan(before: Db, after: Db, r: Outcome)
    requires r.Failure?
    ensures Done(before, Plan([], r), after, r)
  {
  }

  lemma NotClean(env: Env, draw: Draw, workspaceId: string, secretId: string, value: Bytes, labels: Labels, before: Db,
                 after: Db, r: Result<Metadata, Error>)
    requires !LabelsClean(labels)
    requires Done(before, InsertPlan(env, draw, workspaceId, secretId, value, labels, 1), after,
                  if r.Success? then Success(Stored(r.value)) else Failure(r.error))
    ensures r == Failure(MetadataInvalid)
    ensures Done(before, Plan([], Failure(MetadataInvalid)), after, Failure(MetadataInvalid))
  {
  }

  lemma NumberReadsBack(k: VersionKey, row: VersionRow)
    ensures var m := MetadataFromRow(k, row); m.Some? ==> m.value.versionNumber == row.versionNumber
  {
  }
}
