/** The database as a value: five tables, the statements that change them, and the declared
    constraints that make a statement fail. */
module Tables {
  import opened Wrappers
  import opened Models
  import opened Crypto

  datatype VersionRow = VersionRow(
    versionNumber: int, status: string, algorithm: string, keyFingerprint: string, keyVersion: string,
    nonce: Bytes, ciphertext: Ciphertext, labelsJson: string, createdAt: string, revokedAt: Option<string>)

  datatype Db = Db(versions: map<VersionKey, VersionRow>, book: Book)

  const EMPTY_BOOK := Book(map[], map[], map[], map[])
  const EMPTY_DB := Db(map[], EMPTY_BOOK)

  datatype Statement =
    | InsertVersion(key: VersionKey, row: VersionRow)
    | UpdateVersion(key: VersionKey, status: string, nonce: Bytes, ciphertext: Ciphertext, revokedAt: string)
    | InsertPin(at: CorrelationKey, pin: Pin)
    | InsertGeneration(at: CorrelationKey, generation: Generation)
    | InsertRevocation(at: CorrelationKey, revocation: Revocation)
    | InsertAudit(eventId: string, record: AuditRecord)

  predicate NumberTaken(versions: map<VersionKey, VersionRow>, secret: SecretKey, number: int)
  {
    exists k :: k in versions && SecretOf(k) == secret && versions[k].versionNumber == number
  }

  predicate SecretGenerated(generations: map<CorrelationKey, Generation>, workspaceId: string, secretId: string)
  {
    exists c :: c in generations && c.workspaceId == workspaceId && generations[c].secretId == secretId
  }

  predicate VersionRevocationRecorded(revocations: map<CorrelationKey, Revocation>, workspaceId: string,
                                      secretId: string, versionId: string)
  {
    exists c :: c in revocations && c.workspaceId == workspaceId
                && revocations[c].secretId == secretId && revocations[c].versionId == versionId
  }

  /** One statement. An insert fails on a primary key, a unique constraint or a foreign key; the
      error is the one the surrounding code raises for it. */
  function Apply(db: Db, s: Statement): Result<Db, Error>
  {
    match s
    case InsertVersion(key, row) =>
      if key in db.versions || NumberTaken(db.versions, SecretOf(key), row.versionNumber) then Failure(AlreadyExists)
      else Success(db.(versions := db.versions[key := row]))
    case UpdateVersion(key, status, nonce, ciphertext, revokedAt) =>
      if key !in db.versions then Success(db)
      else
        var row := db.versions[key].(
          status := status, nonce := nonce, ciphertext := ciphertext, revokedAt := Some(revokedAt));
        Success(db.(versions := db.versions[key := row]))
    case InsertPin(at, pin) =>
      if at in db.book.pins || VersionKey(at.workspaceId, pin.secretId, pin.versionId) !in db.versions then
        Failure(IntegrityViolation)
      else Success(db.(book := db.book.(pins := db.book.pins[at := pin])))
    case InsertGeneration(at, g) =>
      if at in db.book.generations || SecretGenerated(db.book.generations, at.workspaceId, g.secretId)
         || VersionKey(at.workspaceId, g.secretId, g.versionId) !in db.versions then
        Failure(IntegrityViolation)
      else Success(db.(book := db.book.(generations := db.book.generations[at := g])))
    case InsertRevocation(at, r) =>
      if at in db.book.revocations
         || VersionRevocationRecorded(db.book.revocations, at.workspaceId, r.secretId, r.versionId)
         || VersionKey(at.workspaceId, r.secretId, r.versionId) !in db.versions then
        Failure(IntegrityViolation)
      else Success(db.(book := db.book.(revocations := db.book.revocations[at := r])))
    case InsertAudit(eventId, record) =>
      if eventId in db.book.audit then Failure(AuditUnavailable)
      else Success(db.(book := db.book.(audit := db.book.audit[eventId := record])))
  }

  function ApplyAll(db: Db, statements: seq<Statement>): Result<Db, Error>
    decreases |statements|
  {
    if statements == [] then Success(db)
    else
      match Apply(db, statements[0])
      case Failure(e) => Failure(e)
      case Success(next) => ApplyAll(next, statements[1..])
  }

  /** What an operation decided from its reads: the statements it issues and how it then ends. */
  datatype Plan = Plan(statements: seq<Statement>, outcome: Outcome)

  /** A plan as one transaction: a failing statement or an exception rolls everything back. */
  function Commit(db: Db, plan: Plan): (Db, Outcome)
  {
    match ApplyAll(db, plan.statements)
    case Failure(e) => (db, Failure(e))
    case Success(next) => if plan.outcome.Failure? then (db, plan.outcome) else (next, plan.outcome)
  }

  lemma {:induction false} ApplyAllAppend(db: Db, a: seq<Statement>, b: seq<Statement>)
    ensures ApplyAll(db, a + b)
            == match ApplyAll(db, a) case Failure(e) => Failure(e) case Success(next) => ApplyAll(next, b)
    decreases |a|
  {
    if a == [] {
      assert a + b == b;
    } else {
      assert (a + b)[1..] == a[1..] + b;
      match Apply(db, a[0])
      case Failure(_) =>
      case Success(next) => ApplyAllAppend(next, a[1..], b);
    }
  }

  lemma ApplyOne(db: Db, s: Statement)
    ensures ApplyAll(db, [s]) == Apply(db, s)
  {
  }

  lemma CommitNone(db: Db, outcome: Outcome)
    ensures Commit(db, Plan([], outcome)) == (db, outcome)
  {
  }

  lemma CommitOne(db: Db, s: Statement, reply: Reply)
    ensures Commit(db, Plan([s], Success(reply)))
            == match Apply(db, s) case Failure(e) => (db, Failure(e)) case Success(next) => (next, Success(reply))
  {
    ApplyOne(db, s);
  }

  lemma CommitThree(db: Db, a: Statement, b: Statement, c: Statement, reply: Reply)
    ensures Commit(db, Plan([a, b, c], Success(reply)))
            == match Apply(db, a)
               case Failure(e) => (db, Failure(e))
               case Success(x) =>
                 match Apply(x, b)
                 case Failure(e) => (db, Failure(e))
                 case Success(y) =>
                   match Apply(y, c)
                   case Failure(e) => (db, Failure(e))
                   case Success(z) => (z, Success(reply))
  {
    ApplyAllAppend(db, [a], [b, c]);
    assert [a] + [b, c] == [a, b, c];
    ApplyOne(db, a);
    if Apply(db, a).Success? {
      var x := Apply(db, a).value;
      ApplyAllAppend(x, [b], [c]);
      assert [b] + [c] == [b, c];
      ApplyOne(x, b);
      if Apply(x, b).Success? {
        ApplyOne(Apply(x, b).value, c);
      }
    }
  }

  ghost predicate NumbersUnique(versions: map<VersionKey, VersionRow>)
  {
    forall a, b | a in versions && b in versions && SecretOf(a) == SecretOf(b) && a != b ::
      versions[a].versionNumber != versions[b].versionNumber
  }

  ghost predicate GenerationsUnique(generations: map<CorrelationKey, Generation>)
  {
    forall a, b | a in generations && b in generations && a.workspaceId == b.workspaceId && a != b ::
      generations[a].secretId != generations[b].secretId
  }

  ghost predicate RevocationsUnique(revocations: map<CorrelationKey, Revocation>)
  {
    forall a, b | a in revocations && b in revocations && a.workspaceId == b.workspaceId && a != b ::
      revocations[a].secretId != revocations[b].secretId || revocations[a].versionId != revocations[b].versionId
  }

  ghost predicate ReferencesHold(db: Db)
  {
    && (forall c | c in db.book.pins ::
          VersionKey(c.workspaceId, db.book.pins[c].secretId, db.book.pins[c].versionId) in db.versions)
    && (forall c | c in db.book.generations ::
          VersionKey(c.workspaceId, db.book.generations[c].secretId, db.book.generations[c].versionId) in db.versions)
    && (forall c | c in db.book.revocations ::
          VersionKey(c.workspaceId, db.book.revocations[c].secretId, db.book.revocations[c].versionId) in db.versions)
  }

  /** The declared unique and foreign-key constraints; the maps build in the primary keys. */
  ghost predicate SchemaHolds(db: Db)
  {
    && NumbersUnique(db.versions)
    && GenerationsUnique(db.book.generations)
    && RevocationsUnique(db.book.revocations)
    && ReferencesHold(db)
  }

  lemma ApplyKeepsNumbers(db: Db, s: Statement)
    requires NumbersUnique(db.versions)
    ensures var r := Apply(db, s); r.Success? ==> NumbersUnique(r.value.versions)
  {
  }

  lemma ApplyKeepsRecords(db: Db, s: Statement)
    requires GenerationsUnique(db.book.generations) && RevocationsUnique(db.book.revocations)
    ensures var r := Apply(db, s);
            r.Success? ==> GenerationsUnique(r.value.book.generations) && RevocationsUnique(r.value.book.revocations)
  {
  }

  lemma ApplyKeepsReferences(db: Db, s: Statement)
    requires ReferencesHold(db)
    ensures var r := Apply(db, s); r.Success? ==> ReferencesHold(r.value)
  {
    hide NumberTaken, SecretGenerated, VersionRevocationRecorded;
    var r := Apply(db, s);
    if r.Success? {
      assert forall k :: k in db.versions ==> k in r.value.versions;
    }
  }

  /** No statement can leave the database with a broken constraint. */
  lemma ApplyKeepsSchema(db: Db, s: Statement)
    requires SchemaHolds(db)
    ensures var r := Apply(db, s); r.Success? ==> SchemaHolds(r.value)
  {
    hide Apply, NumbersUnique, GenerationsUnique, RevocationsUnique, ReferencesHold;
    ApplyKeepsNumbers(db, s);
    ApplyKeepsRecords(db, s);
    ApplyKeepsReferences(db, s);
  }
}
