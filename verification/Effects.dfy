/** What a response tells its client about the tables: which effects are atomic with the answer and
    which are not. Everything here holds on any database. */
module Effects {
  import opened Wrappers
  import opened Models
  import opened Crypto
  import opened Tables
  import opened StoreSpec
  import opened History
  import opened Stutter
  import opened Api
  import opened Service
  import Auth
  import Signing

  /** Storage takes the records from `i` on: each append commits, under an event id of its own. */
  ghost predicate CanAppend(luck: Luck, i: nat, n: nat, audit: map<string, AuditRecord>)
  {
    && (forall j: nat | i <= j < n :: luck.appends(j) && luck.draws(j).eventId !in audit)
    && (forall j: nat, k: nat | i <= j < k < n :: luck.draws(j).eventId != luck.draws(k).eventId)
  }

  /** The audit gained exactly the records from `i` on: each in a new row of its own, with the time it drew. */
  ghost predicate Grown(luck: Luck, records: seq<AuditRecord>, i: nat, before: map<string, AuditRecord>,
                        after: map<string, AuditRecord>)
  {
    && Kept(before, after)
    && (forall j: nat | i <= j < |records| ::
          var id := luck.draws(j).eventId;
          id !in before && id in after && after[id] == records[j].(occurredAt := luck.draws(j).auditedAt))
    && (forall j: nat, k: nat | i <= j < k < |records| :: luck.draws(j).eventId != luck.draws(k).eventId)
    && (forall id | id in after && id !in before ::
          exists j: nat | i <= j < |records| :: luck.draws(j).eventId == id)
  }

  /** One more record in front of those already appended. */
  lemma GrownBefore(luck: Luck, records: seq<AuditRecord>, i: nat, before: map<string, AuditRecord>,
                    after: map<string, AuditRecord>)
    requires i < |records| && luck.draws(i).eventId !in before
    requires var row := records[i].(occurredAt := luck.draws(i).auditedAt);
             Grown(luck, records, i + 1, before[luck.draws(i).eventId := row], after)
    ensures Grown(luck, records, i, before, after)
  {
    var next := before[luck.draws(i).eventId := records[i].(occurredAt := luck.draws(i).auditedAt)];
    assert luck.draws(i).eventId in next;
    forall id | id in after && id !in before
      ensures exists j: nat | i <= j < |records| :: luck.draws(j).eventId == id
    {
      if id in next {
        assert luck.draws(i).eventId == id;
      }
    }
  }

  /** Appending records touches no other table. It succeeds exactly when storage takes them all, and
      then the audit gained exactly them. */
  lemma {:induction false} AppendsExactly(env: Env, luck: Luck, drafts: seq<AuditRecord>, i: nat, db: Db)
    requires i <= |drafts|
    ensures var (after, ok) := AppendedFrom(env, luck, drafts, i, db);
            && SameTables(db, after) && Kept(db.book.audit, after.book.audit)
            && (ok <==> CanAppend(luck, i, |drafts|, db.book.audit))
            && (ok ==> Grown(luck, drafts, i, db.book.audit, after.book.audit))
    decreases |drafts| - i
  {
    hide Execute;
    if i < |drafts| && luck.appends(i) {
      var row := drafts[i].(occurredAt := luck.draws(i).auditedAt);
      AppendRecords(env, luck.draws(i), row, db);
      if luck.draws(i).eventId !in db.book.audit {
        var next := Execute(env, luck.draws(i), AppendAudit(row), db).0;
        AppendsExactly(env, luck, drafts, i + 1, next);
        if AppendedFrom(env, luck, drafts, i + 1, next).1 {
          GrownBefore(luck, drafts, i, db.book.audit, AppendedFrom(env, luck, drafts, i + 1, next).0.book.audit);
        }
      }
    }
  }

  lemma ConcludesInTheAudit(env: Env, luck: Luck, c: Continuation, db: Db)
    ensures var (after, response) := Concluded(env, luck, c, db);
            && SameTables(db, after)
            && response == (if CanAppend(luck, 0, |c.drafts|, db.book.audit) then c.response else AUDIT_UNAVAILABLE)
            && (CanAppend(luck, 0, |c.drafts|, db.book.audit) ==>
                  Grown(luck, c.drafts, 0, db.book.audit, after.book.audit))
  {
    hide AppendedFrom, SameTables, CanAppend, Grown;
    AppendsExactly(env, luck, c.drafts, 0, db);
  }

  predicate IsRefusal(response: Response)
  {
    response.Refusal? || response.Crashed?
  }

  /** No handler turns a store success into a refusal. */
  lemma SuccessIsNoRefusal(app: App, route: Route, client: Auth.Credential, outcome: Outcome)
    ensures Continue(app, route, client, outcome).response.Refusal? ==> outcome.Failure?
    ensures !IsRefusal(Continue(app, route, client, outcome).response) ==> outcome.Success?
  {
    hide Draft, CallerOf, CorrelationOf, DurableIntent, Signing.IntentFor, RevokedDrafts;
  }

  /** A refused admission replies with a refusal. */
  lemma RefusedIsRefusal(app: App, authorization: Option<string>, route: Route)
    ensures var a := Admit(app, authorization, route); a.Refuse? ==> IsRefusal(a.response)
  {
    hide IntentAllowed, Auth.Granted, CanonicalLabels, IsIdentifier, Auth.FirstWith, Auth.Strip, Draft,
         Signing.IntentFor;
  }

  lemma CalledFailsClean(env: Env, luck: Luck, request: Request, db: Db)
    ensures var (after, outcome) := Called(env, luck, request, db); outcome.Failure? ==> after == db
  {
    hide PlanOf, ApplyAll;
  }

  /** A refusal, other than the 503 of a failed audit append, means that no version, pin, generation or
      revocation changed. */
  lemma RefusalsChangeOnlyTheAudit(app: App, env: Env, luck: Luck, authorization: Option<string>, route: Route, db: Db)
    ensures var (after, response) := Handled(app, env, luck, authorization, route, db);
            response.Refusal? && response != AUDIT_UNAVAILABLE ==> SameTables(db, after)
  {
    hide Admit, Continue, Concluded, Called, SameTables;
    match Admit(app, authorization, route)
    case Refuse(drafts, response) => ConcludesInTheAudit(env, luck, Continuation(drafts, response), db);
    case CallStore(client, request) =>
      var (stored, outcome) := Called(env, luck, request, db);
      CalledFailsClean(env, luck, request, db);
      SuccessIsNoRefusal(app, route, client, outcome);
      ConcludesInTheAudit(env, luck, Continue(app, route, client, outcome), stored);
  }

  /** The 503 of a failed append says nothing about the store call: the tables are those the call left,
      so a version stored, rotated or revoked stays so. */
  lemma AuditFailureKeepsTheEffect(app: App, env: Env, luck: Luck, authorization: Option<string>, route: Route, db: Db)
    requires Admit(app, authorization, route).CallStore?
    ensures SameTables(Called(env, luck, Admit(app, authorization, route).request, db).0,
                       Handled(app, env, luck, authorization, route, db).0)
  {
    hide Admit, Continue, Concluded, Called, SameTables;
    var a := Admit(app, authorization, route);
    var (stored, outcome) := Called(env, luck, a.request, db);
    ConcludesInTheAudit(env, luck, Continue(app, route, a.client, outcome), stored);
  }

  /** A response that is no refusal means that the request was admitted, its store call succeeded and
      committed, and the audit then gained exactly its records. */
  lemma SuccessIsAudited(app: App, env: Env, luck: Luck, authorization: Option<string>, route: Route, db: Db)
    requires !IsRefusal(Handled(app, env, luck, authorization, route, db).1)
    ensures var (after, response) := Handled(app, env, luck, authorization, route, db);
            var a := Admit(app, authorization, route);
            && a.CallStore?
            && var (stored, outcome) := Called(env, luck, a.request, db);
            && outcome.Success? && stored == Execute(env, luck.draw, a.request, db).0 && SameTables(stored, after)
            && var c := Continue(app, route, a.client, outcome);
            response == c.response && Grown(luck, c.drafts, 0, stored.book.audit, after.book.audit)
  {
    hide Admit, Continue, Concluded, SameTables, CanAppend, Grown, Execute;
    RefusedIsRefusal(app, authorization, route);
    match Admit(app, authorization, route)
    case Refuse(drafts, response) => ConcludesInTheAudit(env, luck, Continuation(drafts, response), db);
    case CallStore(client, request) =>
      var (stored, outcome) := Called(env, luck, request, db);
      SuccessIsNoRefusal(app, route, client, outcome);
      ConcludesInTheAudit(env, luck, Continue(app, route, client, outcome), stored);
  }
}
