/** The handlers as methods on the store and the audit store, in the code's own order of checks,
    effects and appends. Each is proved to do what `Api` says of its route. */
module Service {
  import opened Wrappers
  import opened JsonObjects
  import opened Models
  import opened Crypto
  import opened Signing
  import opened Tables
  import opened StoreSpec
  import opened Auth
  import opened Api
  import Store

  /** What one request draws: for its store call and each audit append, the drawn values and whether
      storage lets it commit. */
  datatype Luck = Luck(draw: Draw, commits: bool, draws: nat -> Draw, appends: nat -> bool)

  // ----- What a request does, in one piece --------------------------------------------------

  /** The records from index `i` on appended one by one, each in its own transaction, up to the first failure. */
  ghost function AppendedFrom(env: Env, luck: Luck, drafts: seq<AuditRecord>, i: nat, db: Db): (Db, bool)
    requires i <= |drafts|
    decreases |drafts| - i
  {
    if i == |drafts| then (db, true)
    else if !luck.appends(i) then (db, false)
    else
      var record := drafts[i].(occurredAt := luck.draws(i).auditedAt);
      var (next, outcome) := Execute(env, luck.draws(i), AppendAudit(record), db);
      if outcome.Failure? then (next, false) else AppendedFrom(env, luck, drafts, i + 1, next)
  }

  ghost function Concluded(env: Env, luck: Luck, c: Continuation, db: Db): (Db, Response)
  {
    var (after, ok) := AppendedFrom(env, luck, c.drafts, 0, db);
    (after, if ok then c.response else AUDIT_UNAVAILABLE)
  }

  /** The store call of a request; a commit may fail, a read has nothing to commit. */
  ghost function Called(env: Env, luck: Luck, request: Request, db: Db): (Db, Outcome)
  {
    var (next, outcome) := Execute(env, luck.draw, request, db);
    if outcome.Success? && !luck.commits && !request.ReadMetadata? then (db, Failure(StorageFailure))
       else (next, outcome)
  }

  ghost function Handled(app: App, env: Env, luck: Luck, authorization: Option<string>, route: Route, db: Db)
    : (Db, Response)
  {
    match Admit(app, authorization, route)
    case Refuse(drafts, response) => Concluded(env, luck, Continuation(drafts, response), db)
    case CallStore(client, request) =>
      var (after, outcome) := Called(env, luck, request, db);
      Concluded(env, luck, Continue(app, route, client, outcome), after)
  }

  lemma ConcludedNone(env: Env, luck: Luck, response: Response, db: Db)
    ensures Concluded(env, luck, Continuation([], response), db) == (db, response)
  {
  }

  lemma ReturnedIsCalled(env: Env, luck: Luck, request: Request, before: Db, after: Db, r: Outcome)
    requires !request.ReadMetadata?
    requires Store.Returned(before, PlanOf(env, luck.draw, request, before), luck.commits, after, r)
    ensures Called(env, luck, request, before) == (after, r)
  {
    hide PlanOf, ApplyAll;
  }

  lemma ReadIsCalled(env: Env, luck: Luck, request: Request, db: Db, r: Outcome)
    requires request.ReadMetadata?
    requires Commit(db, ReadMetadataPlan(db.versions, request.workspaceId, request.secretId, request.version))
             == (db, r)
    ensures Called(env, luck, request, db) == (db, r)
  {
    hide ReadMetadataPlan, ApplyAll;
  }

  class SecretsApi {
    const app: App
    const store: Store.EncryptedSecretStore
    const audit: Store.SqliteAuditStore

    constructor (app: App, store: Store.EncryptedSecretStore, audit: Store.SqliteAuditStore)
      requires audit.database == store.database
      ensures this.app == app && this.store == store && this.audit == audit
    {
      this.app, this.store, this.audit := app, store, audit;
    }

    predicate Ready()
    {
      audit.database == store.database
    }

    /** `_append_audit` for each record in turn, then the response. */
    method Conclude(c: Continuation, luck: Luck) returns (response: Response)
      requires Ready() && store.database.Valid()
      modifies store.database
      ensures store.database.Valid()
      ensures (store.database.Contents(), response) == Concluded(store.env, luck, c, old(store.database.Contents()))
    {
      hide Execute, SchemaHolds;
      ghost var before := store.database.Contents();
      for i := 0 to |c.drafts|
        invariant store.database.Valid()
        invariant AppendedFrom(store.env, luck, c.drafts, i, store.database.Contents())
                  == AppendedFrom(store.env, luck, c.drafts, 0, before)
      {
        var record := c.drafts[i].(occurredAt := luck.draws(i).auditedAt);
        var appended := audit.Append(store.env, luck.draws(i), record, luck.appends(i));
        if appended.Failure? {
          return AUDIT_UNAVAILABLE;
        }
      }
      response := c.response;
    }

    method Refuse(route: Route, client: Credential, version: Option<string>, intent: Option<string>, status: int,
                  code: string, luck: Luck) returns (response: Response)
      requires Ready() && store.database.Valid()
      modifies store.database
      ensures store.database.Valid()
      ensures (store.database.Contents(), response)
              == Concluded(store.env, luck, Recorded(app, route, client, version, intent, status, code),
                           old(store.database.Contents()))
    {
      response := Conclude(Recorded(app, route, client, version, intent, status, code), luck);
    }

    /** The checks of the write and rotate handlers: the vetted labels, or the response that ends them. */
    method VetValue(route: Route, client: Credential, action: string, luck: Luck) returns (r: Result<Labels, Response>)
      requires route.WriteRoute? || route.RotateRoute?
      requires Ready() && store.database.Valid()
      modifies store.database
      ensures store.database.Valid()
      ensures match AdmitValue(app, route, client, action)
              case Refuse(drafts, response) =>
                r.Failure? && (store.database.Contents(), r.error)
                              == Concluded(store.env, luck, Continuation(drafts, response),
                                           old(store.database.Contents()))
              case CallStore(_, request) =>
                && store.database.Contents() == old(store.database.Contents()) && route.value.Some?
                && r == Success(if request.Create? then request.labels else if request.Rotate? then request.labels
                                else map[])
    {
      hide IntentAllowed, Granted, CanonicalLabels, Recorded, SchemaHolds, Concluded;
      if !IntentAllowed(route.intent) {
        var response := Refuse(route, client, None, Some(route.intent), 400, "unsupported-intent", luck);
        return Failure(response);
      }
      if !Granted(client.grants, action, route.workspaceId, Some(route.intent)) {
        var response := Refuse(route, client, None, Some(route.intent), 403, "insufficient-scope", luck);
        return Failure(response);
      }
      var labels := CanonicalLabels(route.labels, route.intent);
      if labels.None? {
        var response := Refuse(route, client, None, Some(route.intent), 400, "intent-label-conflict", luck);
        return Failure(response);
      }
      if route.value.None? {
        ConcludedNone(store.env, luck, Refusal(400, "invalid-secret-material"), store.database.Contents());
        return Failure(Refusal(400, "invalid-secret-material"));
      }
      if |route.value.value| > MAX_SECRET_BYTES {
        ConcludedNone(store.env, luck, Refusal(400, "secret-material-too-large"), store.database.Contents());
        return Failure(Refusal(400, "secret-material-too-large"));
      }
      r := Success(labels.value);
    }

    /** The `credential` dependency of every route but resolve. */
    method Authorize(authorization: Option<string>) returns (r: Result<Credential, Response>)
      ensures match Authenticate(app.credentials, authorization)
              case Broken => r == Failure(Crashed)
              case Unauthenticated => r == Failure(Refusal(401, "unauthenticated"))
              case Authenticated(client) => r == Success(client)
    {
      var who := Authenticate(app.credentials, authorization);
      if who.Broken? {
        return Failure(Crashed);
      }
      if who.Unauthenticated? {
        return Failure(Refusal(401, "unauthenticated"));
      }
      r := Success(who.credential);
    }

    method Write(authorization: Option<string>, route: Route, luck: Luck) returns (response: Response)
      requires route.WriteRoute? && Ready() && store.database.Valid()
      modifies store.database
      ensures store.database.Valid()
      ensures (store.database.Contents(), response)
              == Handled(app, store.env, luck, authorization, route, old(store.database.Contents()))
    {
      hide SchemaHolds, Authenticate, AdmitValue, Concluded, Called, PlanOf, Store.Returned;
      ghost var before := store.database.Contents();
      var client := Authorize(authorization);
      if client.Failure? {
        ConcludedNone(store.env, luck, client.error, before);
        return client.error;
      }
      var vetted := VetValue(route, client.value, WRITE, luck);
      if vetted.Failure? {
        return vetted.error;
      }
      ghost var request := Create(route.workspaceId, route.secretId, route.value.value, vetted.value);
      AdmittedWrite(app, route, client.value, vetted.value);
      var outcome := store.CreateSecret(luck.draw, route.workspaceId, route.secretId, route.value.value, vetted.value,
                                        luck.commits);
      ReturnedIsCalled(store.env, luck, request, before, store.database.Contents(), outcome);
      response := Conclude(AfterWrite(app, route, client.value, outcome), luck);
    }

    method Rotate(authorization: Option<string>, route: Route, luck: Luck) returns (response: Response)
      requires route.RotateRoute? && Ready() && store.database.Valid()
      modifies store.database
      ensures store.database.Valid()
      ensures (store.database.Contents(), response)
              == Handled(app, store.env, luck, authorization, route, old(store.database.Contents()))
    {
      hide SchemaHolds, Authenticate, AdmitValue, Concluded, Called, PlanOf, Store.Returned;
      ghost var before := store.database.Contents();
      var client := Authorize(authorization);
      if client.Failure? {
        ConcludedNone(store.env, luck, client.error, before);
        return client.error;
      }
      var vetted := VetValue(route, client.value, ROTATE, luck);
      if vetted.Failure? {
        return vetted.error;
      }
      ghost var request :=
        Request.Rotate(route.workspaceId, route.secretId, route.value.value, vetted.value, Some(route.intent));
      AdmittedRotation(app, route, client.value, vetted.value);
      var outcome := store.RotateSecret(luck.draw, route.workspaceId, route.secretId, route.value.value, vetted.value,
                                        Some(route.intent), luck.commits);
      ReturnedIsCalled(store.env, luck, request, before, store.database.Contents(), outcome);
      response := Conclude(AfterRotate(app, route, client.value, outcome), luck);
    }

    method Generate(authorization: Option<string>, route: Route, luck: Luck) returns (response: Response)
      requires route.GenerateRoute? && Ready() && store.database.Valid()
      modifies store.database
      ensures store.database.Valid()
      ensures (store.database.Contents(), response)
              == Handled(app, store.env, luck, authorization, route, old(store.database.Contents()))
    {
      hide SchemaHolds, Authenticate, Concluded, Called, PlanOf, Store.Returned, Granted, IntentFor, IsIdentifier,
           Recorded;
      ghost var before := store.database.Contents();
      var client := Authorize(authorization);
      if client.Failure? {
        ConcludedNone(store.env, luck, client.error, before);
        return client.error;
      }
      var intent := IntentFor(route.purpose);
      if intent.None? {
        response := Refuse(route, client.value, None, None, 400, "invalid-delegation-key-generation", luck);
        return;
      }
      if !IsIdentifier(route.issuer) || !IsIdentifier(route.callerSubject)
         || !app.validReference(route.secretReference) {
        response := Refuse(route, client.value, None, intent, 400, "invalid-delegation-key-generation", luck);
        return;
      }
      if !Granted(client.value.grants, GENERATE, route.workspaceId, intent) {
        response := Refuse(route, client.value, None, intent, 403, "insufficient-scope", luck);
        return;
      }
      ghost var request :=
        Request.Generate(route.workspaceId, route.secretId, route.secretReference, route.purpose, intent.value,
                         route.issuer, route.callerSubject, route.correlationId, app.providerId);
      var outcome := store.GenerateDelegationKey(audit, luck.draw, route.workspaceId, route.secretId,
                                                 route.secretReference,
                                                 route.purpose, intent.value, route.issuer, route.callerSubject,
                                                 route.correlationId, app.providerId, luck.commits);
      ReturnedIsCalled(store.env, luck, request, before, store.database.Contents(), outcome);
      response := Conclude(AfterGenerate(app, route, client.value, outcome), luck);
    }

    method Resolve(authorization: Option<string>, route: Route, luck: Luck) returns (response: Response)
      requires route.ResolveRoute? && Ready() && store.database.Valid()
      modifies store.database
      ensures store.database.Valid()
      ensures (store.database.Contents(), response)
              == Handled(app, store.env, luck, authorization, route, old(store.database.Contents()))
    {
      hide SchemaHolds, Authenticate, Concluded, Called, PlanOf, Store.Returned, Granted, IntentAllowed, Recorded,
           Draft;
      ghost var before := store.database.Contents();
      var who := Authenticate(app.credentials, authorization);
      if who.Broken? {
        ConcludedNone(store.env, luck, Crashed, before);
        return Crashed;
      }
      if who.Unauthenticated? {
        var draft := Draft(app, route, route.version, Some(route.intent), NOBODY.subject, route.correlationId,
                           RejectedRequest("unauthenticated"));
        response := Conclude(Continuation([draft], Refusal(401, "unauthenticated")), luck);
        return;
      }
      var client := who.credential;
      if !IntentAllowed(route.intent) {
        response := Refuse(route, client, route.version, Some(route.intent), 400, "unsupported-intent", luck);
        return;
      }
      if !Granted(client.grants, RESOLVE, route.workspaceId, Some(route.intent)) {
        response := Refuse(route, client, route.version, Some(route.intent), 403, "insufficient-scope", luck);
        return;
      }
      ghost var request := ResolveForUse(route.workspaceId, route.secretId, route.intent, route.callerSubject,
                                         route.correlationId, route.version);
      var outcome := store.ResolveSecretForUse(luck.draw, route.workspaceId, route.secretId, route.intent,
                                               route.callerSubject, route.correlationId, route.version, luck.commits);
      ReturnedIsCalled(store.env, luck, request, before, store.database.Contents(), outcome);
      response := Conclude(AfterResolve(app, route, client, outcome), luck);
    }

    method RevokeVersion(authorization: Option<string>, route: Route, luck: Luck) returns (response: Response)
      requires route.RevokeVersionRoute? && Ready() && store.database.Valid()
      modifies store.database
      ensures store.database.Valid()
      ensures (store.database.Contents(), response)
              == Handled(app, store.env, luck, authorization, route, old(store.database.Contents()))
    {
      hide SchemaHolds, Authenticate, Concluded, Called, PlanOf, Store.Returned, Granted;
      ghost var before := store.database.Contents();
      var client := Authorize(authorization);
      if client.Failure? {
        ConcludedNone(store.env, luck, client.error, before);
        return client.error;
      }
      if !Granted(client.value.grants, REVOKE, route.workspaceId, None) {
        ConcludedNone(store.env, luck, Refusal(403, "insufficient-scope"), before);
        return Refusal(403, "insufficient-scope");
      }
      ghost var request := Request.RevokeVersion(route.workspaceId, route.secretId, route.versionId,
                                                 route.versionNumber,
                                                 route.callerSubject, route.correlationId, app.providerId);
      var outcome := store.RevokeSecretVersion(audit, luck.draw, route.workspaceId, route.secretId, route.versionId,
                                               route.versionNumber, route.callerSubject, route.correlationId,
                                               app.providerId, luck.commits);
      ReturnedIsCalled(store.env, luck, request, before, store.database.Contents(), outcome);
      response := Conclude(AfterRevokeVersion(outcome), luck);
    }

    /** Whole-reference revocation, and one audit append per revoked version. */
    method Revoke(authorization: Option<string>, route: Route, luck: Luck) returns (response: Response)
      requires route.RevokeRoute? && Ready() && store.database.Valid()
      modifies store.database
      ensures store.database.Valid()
      ensures (store.database.Contents(), response)
              == Handled(app, store.env, luck, authorization, route, old(store.database.Contents()))
    {
      hide SchemaHolds, Authenticate, Concluded, Called, PlanOf, Store.Returned, Granted, RevokedDrafts;
      ghost var before := store.database.Contents();
      var client := Authorize(authorization);
      if client.Failure? {
        ConcludedNone(store.env, luck, client.error, before);
        return client.error;
      }
      if !Granted(client.value.grants, REVOKE, route.workspaceId, None) {
        ConcludedNone(store.env, luck, Refusal(403, "insufficient-scope"), before);
        return Refusal(403, "insufficient-scope");
      }
      ghost var request := RevokeSecret(route.workspaceId, route.secretId);
      var outcome := store.RevokeSecret(luck.draw, route.workspaceId, route.secretId, luck.commits);
      ReturnedIsCalled(store.env, luck, request, before, store.database.Contents(), outcome);
      response := Conclude(AfterRevoke(app, route, client.value, outcome), luck);
    }

    method ReadMetadata(authorization: Option<string>, route: Route, luck: Luck) returns (response: Response)
      requires route.MetadataRoute? && Ready() && store.database.Valid()
      modifies store.database
      ensures store.database.Valid()
      ensures (store.database.Contents(), response)
              == Handled(app, store.env, luck, authorization, route, old(store.database.Contents()))
    {
      hide SchemaHolds, Authenticate, Concluded, Called, PlanOf, Granted, ReadMetadataPlan;
      ghost var before := store.database.Contents();
      var client := Authorize(authorization);
      if client.Failure? {
        ConcludedNone(store.env, luck, client.error, before);
        return client.error;
      }
      if !Granted(client.value.grants, READ, route.workspaceId, None) {
        ConcludedNone(store.env, luck, Refusal(403, "insufficient-scope"), before);
        return Refusal(403, "insufficient-scope");
      }
      ghost var request := Request.ReadMetadata(route.workspaceId, route.secretId, route.version);
      var outcome := store.ReadMetadata(route.workspaceId, route.secretId, route.version);
      ReadIsCalled(store.env, luck, request, before, outcome);
      response := Conclude(AfterRead(app, route, client.value, outcome), luck);
    }
  }

  lemma AdmittedWrite(app: App, route: Route, client: Credential, labels: Labels)
    requires route.WriteRoute?
    requires var a := AdmitValue(app, route, client, WRITE);
             a.CallStore? && a.request.Create? ==> a.request.labels == labels
    ensures var a := AdmitValue(app, route, client, WRITE);
            a.CallStore? ==> a == CallStore(client, Create(route.workspaceId, route.secretId, route.value.value,
                                                           labels))
  {
    hide IntentAllowed, Granted, CanonicalLabels, Recorded;
  }

  lemma AdmittedRotation(app: App, route: Route, client: Credential, labels: Labels)
    requires route.RotateRoute?
    requires var a := AdmitValue(app, route, client, ROTATE);
             a.CallStore? && a.request.Rotate? ==> a.request.labels == labels
    ensures var a := AdmitValue(app, route, client, ROTATE);
            a.CallStore? ==>
              a == CallStore(client, Request.Rotate(route.workspaceId, route.secretId, route.value.value, labels,
                                                    Some(route.intent)))
  {
    hide IntentAllowed, Granted, CanonicalLabels, Recorded;
  }
}
