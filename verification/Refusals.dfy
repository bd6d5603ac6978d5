/** What a refusal means on any database, whatever its route: its status, the store error behind it, and
    the one audit row it leaves, if it leaves any. */
module Refusals {
  import opened Wrappers
  import opened Models
  import opened Crypto
  import opened Signing
  import opened Tables
  import opened StoreSpec
  import opened Stutter
  import opened Auth
  import opened Api
  import opened Service
  import opened Effects
  import opened Routes

  /** One status for each code, on every route. */
  function StatusOf(code: string): int
  {
    if code == "unauthenticated" then 401
    else if code in {"insufficient-scope", "secret-intent-mismatch"} then 403
    else if code == "secret-missing" then 404
    else if code in {"secret-already-exists", "secret-version-conflict", "secret-intent-conflict",
                     "generation-correlation-conflict", "resolution-correlation-conflict",
                     "version-revocation-conflict", "secret-revoked"} then 409
    else if code in {"integrity-failure", "audit-unavailable"} then 503
    else 400
  }

  lemma StoreStatuses()
    ensures StatusOf("secret-missing") == 404 && StatusOf("secret-intent-mismatch") == 403
    ensures StatusOf("integrity-failure") == StatusOf("audit-unavailable") == 503
    ensures StatusOf("invalid-metadata") == 400
    ensures StatusOf("secret-already-exists") == StatusOf("secret-version-conflict") == 409
    ensures StatusOf("secret-intent-conflict") == StatusOf("secret-revoked") == 409
    ensures StatusOf("generation-correlation-conflict") == StatusOf("resolution-correlation-conflict") == 409
    ensures StatusOf("version-revocation-conflict") == 409
  {
  }

  /** The code a store error is answered with; on a route with none the error is not caught. */
  function CodeFor(route: Route, e: Error): Option<string>
  {
    var writes := route.WriteRoute? || route.RotateRoute?;
    var correlated := route.GenerateRoute? || route.RevokeVersionRoute?;
    match e
    case Missing => if route.WriteRoute? || route.GenerateRoute? then None else Some("secret-missing")
    case AlreadyExists =>
      if route.RotateRoute? then Some("secret-version-conflict")
      else if route.WriteRoute? || route.GenerateRoute? then Some("secret-already-exists") else None
    case SecretRevoked => if correlated || route.ResolveRoute? then Some("secret-revoked") else None
    case Tampered =>
      if correlated || route.ResolveRoute? || route.RevokeRoute? then Some("integrity-failure") else None
    case MetadataInvalid => if writes then Some("invalid-metadata") else None
    case IntentMismatch =>
      if route.RotateRoute? then Some("secret-intent-conflict")
      else if route.ResolveRoute? then Some("secret-intent-mismatch") else None
    case ResolutionConflict => if route.ResolveRoute? then Some("resolution-correlation-conflict") else None
    case RevocationConflict => if route.RevokeVersionRoute? then Some("version-revocation-conflict") else None
    case GenerationConflict => if route.GenerateRoute? then Some("generation-correlation-conflict") else None
    case AuditUnavailable => if correlated then Some("audit-unavailable") else None
    case _ => None
  }

  /** The refusals that leave an audit row: not those of exact-version revocation, of an undecodable or
      oversized value, of a failed append, of a header outside the resolve route, or of a denied read
      or whole-reference revocation. */
  predicate LeavesRow(route: Route, code: string)
  {
    && !route.RevokeVersionRoute?
    && code !in {"audit-unavailable", "invalid-secret-material", "secret-material-too-large"}
    && (code == "unauthenticated" ==> route.ResolveRoute?)
    && (code == "insufficient-scope" ==> !route.RevokeRoute? && !route.MetadataRoute?)
  }

  function VersionNamed(route: Route): Option<string>
  {
    if route.ResolveRoute? || route.MetadataRoute? then route.version else None
  }

  /** The rows a refusal leaves: what the request names, who it says is calling, and the code sent. */
  function RefusalRows(app: App, route: Route, subject: string, code: string): seq<AuditRecord>
  {
    if !LeavesRow(route, code) then []
    else
      [AuditRecord(app.providerId, route.workspaceId, route.secretId,
                   VersionNamed(route), IntentAsked(route), subject, CorrelationNamed(route), RejectedRequest(code),
                   "")]
  }

  /** A recorded refusal leaves its row. */
  lemma RecordsItsRow(app: App, route: Route, client: Credential, code: string)
    requires LeavesRow(route, code)
    ensures Recorded(app, route, client, VersionNamed(route), IntentAsked(route), StatusOf(code), code)
            == Continuation(RefusalRows(app, route, SubjectNamed(route, client), code), Refusal(StatusOf(code), code))
  {
    NamesAgree(route, client);
  }

  lemma ValueRefusals(app: App, route: Route, client: Credential, action: string)
    requires route.WriteRoute? || route.RotateRoute?
    ensures RefusedFor(app, route, client, AdmitValue(app, route, client, action))
  {
    hide IntentAllowed, Granted, CanonicalLabels, Recorded, SubjectNamed, CorrelationNamed;
    RecordsItsRow(app, route, client, "unsupported-intent");
    RecordsItsRow(app, route, client, "insufficient-scope");
    RecordsItsRow(app, route, client, "intent-label-conflict");
  }

  /** A refusal of this client has its code's status and leaves its rows. */
  ghost predicate RefusedFor(app: App, route: Route, client: Credential, a: Admission)
  {
    a.Refuse? ==>
      && a.response.Refusal? && a.response.code !in {"unauthenticated", "audit-unavailable"}
      && a.response.status == StatusOf(a.response.code)
      && a.drafts == RefusalRows(app, route, SubjectNamed(route, client), a.response.code)
  }

  lemma ClientRefusals(app: App, route: Route, client: Credential)
    ensures RefusedFor(app, route, client, AdmitClient(app, route, client))
  {
    hide IntentAllowed, Granted, IsIdentifier, Recorded, IntentFor, AdmitValue, SubjectNamed, CorrelationNamed;
    match route
    case WriteRoute(_, _, _, _, _, _, _) => ValueRefusals(app, route, client, WRITE);
    case RotateRoute(_, _, _, _, _, _, _) => ValueRefusals(app, route, client, ROTATE);
    case GenerateRoute(_, _, _, _, _, _, _) =>
      RecordsItsRow(app, route, client, "invalid-delegation-key-generation");
      RecordsItsRow(app, route, client, "insufficient-scope");
    case ResolveRoute(_, _, _, _, _, _) =>
      RecordsItsRow(app, route, client, "unsupported-intent");
      RecordsItsRow(app, route, client, "insufficient-scope");
    case _ =>
  }

  lemma StoreRefusals(app: App, route: Route, client: Credential, e: Error)
    ensures var c := Continue(app, route, client, Failure(e));
            match CodeFor(route, e)
            case None => c == Continuation([], Crashed)
            case Some(code) =>
              && code != "unauthenticated"
              && c == Continuation(RefusalRows(app, route, SubjectNamed(route, client), code),
                                   Refusal(StatusOf(code), code))
  {
    hide IntentFor, Recorded, SubjectNamed, CorrelationNamed, StatusOf;
    StoreStatuses();
    if CodeFor(route, e).Some? && LeavesRow(route, CodeFor(route, e).value) {
      RecordsItsRow(app, route, client, CodeFor(route, e).value);
    }
  }

  // ----- Over whole requests ----------------------------------------------------------------

  lemma ConcludesRefusal(env: Env, luck: Luck, rows: seq<AuditRecord>, response: Response, db: Db)
    ensures var (after, sent) := Concluded(env, luck, Continuation(rows, response), db);
            && SameTables(db, after)
            && sent == (if CanAppend(luck, 0, |rows|, db.book.audit) then response else AUDIT_UNAVAILABLE)
            && (CanAppend(luck, 0, |rows|, db.book.audit) ==>
                  Grown(luck, rows, 0, db.book.audit, after.book.audit))
  {
    hide Concluded, SameTables, CanAppend, Grown;
    ConcludesInTheAudit(env, luck, Continuation(rows, response), db);
  }

  /** Who a refused request is recorded for: nobody in particular, or a declared client whose token it bears. */
  ghost predicate RefusedSubject(app: App, authorization: Option<string>, route: Route, code: string, subject: string)
  {
    if code == "unauthenticated" then subject == "unauthenticated"
    else
      exists client :: client in app.credentials && Bears(authorization, client.token)
                       && subject == SubjectNamed(route, client)
  }

  /** A refusal, other than that of a failed append, changes no table, has its code's status, and leaves
      exactly the row that says it, or none where its route and code leave none. */
  lemma RefusalsLeaveTheirRow(app: App, env: Env, luck: Luck, authorization: Option<string>, route: Route, db: Db)
    requires Handled(app, env, luck, authorization, route, db).1.Refusal?
    requires Handled(app, env, luck, authorization, route, db).1.code != "audit-unavailable"
    ensures var (after, response) := Handled(app, env, luck, authorization, route, db);
            && SameTables(db, after) && response.status == StatusOf(response.code)
            && exists subject :: RefusedSubject(app, authorization, route, response.code, subject)
                 && Grown(luck, RefusalRows(app, route, subject, response.code), 0, db.book.audit, after.book.audit)
  {
    hide AdmitClient, Continue, Concluded, Called, SameTables, CanAppend, Grown, Execute, Bears, Authenticate, StatusOf,
         RefusalRows, SubjectNamed, CodeFor;
    var subject := "unauthenticated";
    var (after, response) := Handled(app, env, luck, authorization, route, db);
    match Authenticate(app.credentials, authorization)
    case Broken => ConcludesRefusal(env, luck, [], Crashed, db);
    case Unauthenticated =>
      NobodysRow(app, route);
      ConcludesRefusal(env, luck, RefusalRows(app, route, NOBODY.subject, "unauthenticated"),
                       Refusal(401, "unauthenticated"), db);
    case Authenticated(client) =>
      BearerIsMember(app.credentials, authorization, client);
      subject := SubjectNamed(route, client);
      ClientRefusals(app, route, client);
      AsksExactly(app, route, client);
      match AdmitClient(app, route, client)
      case Refuse(drafts, refusal) => ConcludesRefusal(env, luck, drafts, refusal, db);
      case CallStore(_, request) =>
        var (stored, outcome) := Called(env, luck, request, db);
        var c := Continue(app, route, client, outcome);
        CalledFailsClean(env, luck, request, db);
        SuccessIsNoRefusal(app, route, client, outcome);
        ConcludesRefusal(env, luck, c.drafts, c.response, stored);
        if outcome.Failure? {
          StoreRefusals(app, route, client, outcome.error);
        }
    assert Grown(luck, RefusalRows(app, route, subject, response.code), 0, db.book.audit, after.book.audit);
  }

  lemma NobodysRow(app: App, route: Route)
    ensures StatusOf("unauthenticated") == 401
    ensures RefusalRows(app, route, NOBODY.subject, "unauthenticated")
            == if route.ResolveRoute? then
                 [Draft(app, route, route.version, Some(route.intent), NOBODY.subject, route.correlationId,
                        RejectedRequest("unauthenticated"))]
               else []
  {
  }

  /** A well-formed and granted request whose store call fails is answered as its error is on every route:
      the tables stay, and an error its route does not catch crashes it. */
  lemma StoreErrorsAreAnswered(app: App, env: Env, luck: Luck, authorization: Option<string>, route: Route, db: Db,
                               client: Credential, e: Error)
    requires TokensDistinct(app.credentials) && TokensPlain(app.credentials)
    requires MayAsk(app, authorization, route, client) && WellFormed(app, route)
    requires Execute(env, luck.draw, Asked(app, route), db).1 == Failure(e)
    ensures var (after, response) := Handled(app, env, luck, authorization, route, db);
            && SameTables(db, after)
            && match CodeFor(route, e)
               case None => response == Crashed && after == db
               case Some(code) =>
                 response == if CanAppend(luck, 0, if LeavesRow(route, code) then 1 else 0, db.book.audit)
                             then Refusal(StatusOf(code), code) else AUDIT_UNAVAILABLE
  {
    hide AdmitClient, Continue, Concluded, SameTables, CanAppend, Grown, Execute, Bears, Authenticate, StatusOf,
         SubjectNamed, CodeFor, Granted, WellFormed, TokensDistinct, TokensPlain, ActionOf, IntentAsked, Asked,
         LeavesRow, CorrelationNamed, VersionNamed;
    AuthenticatesExactly(app.credentials, authorization, client);
    AdmitsClient(app, authorization, route, client);
    StoreRefusals(app, route, client, e);
    FailureChangesNothing(env, luck.draw, Asked(app, route), db);
    var c := Continue(app, route, client, Failure(e));
    ConcludesRefusal(env, luck, c.drafts, c.response, db);
    if CodeFor(route, e).None? {
      ConcludedNone(env, luck, Crashed, db);
    }
  }

  /** What a request must satisfy before its grant is looked at. */
  predicate BeforeGrant(app: App, route: Route)
  {
    if route.WriteRoute? || route.RotateRoute? then IntentAllowed(route.intent) else WellFormed(app, route)
  }

  lemma ClientDenied(app: App, route: Route, client: Credential)
    ensures var a := AdmitClient(app, route, client);
            a.Refuse? && a.response == Refusal(403, "insufficient-scope")
            <==> BeforeGrant(app, route)
                 && !Granted(client.grants, ActionOf(route), route.workspaceId, IntentAsked(route))
  {
    hide IntentAllowed, Granted, IsIdentifier, Draft, IntentFor, CanonicalLabels;
    if route.GenerateRoute? {
      SigningIntentsAllowed(route.purpose);
    }
  }

  lemma NoErrorDenies(app: App, route: Route, client: Credential, outcome: Outcome)
    ensures var r := Continue(app, route, client, outcome).response;
            r.Refusal? ==> r.code !in {"insufficient-scope", "unauthenticated"}
  {
    hide Draft, CallerOf, CorrelationOf, DurableIntent, IntentFor, RevokedDrafts;
  }

  /** Where storage takes the row of a refusal: a request is answered 401 exactly when its header bears no
      declared token, and 403 for its scope exactly when it bears that of a client which is not granted
      the action, and what is checked first holds. */
  lemma DeniesExactly(app: App, env: Env, luck: Luck, authorization: Option<string>, route: Route, db: Db)
    requires TokensDistinct(app.credentials) && TokensPlain(app.credentials)
    requires CanAppend(luck, 0, 1, db.book.audit)
    ensures var response := Handled(app, env, luck, authorization, route, db).1;
            && (response == Refusal(401, "unauthenticated")
                <==> !Authenticate(app.credentials, authorization).Broken?
                     && forall c :: c in app.credentials ==> !Bears(authorization, c.token))
            && (response == Refusal(403, "insufficient-scope")
                <==> BeforeGrant(app, route)
                     && exists c :: c in app.credentials && Bears(authorization, c.token)
                          && !Granted(c.grants, ActionOf(route), route.workspaceId, IntentAsked(route)))
  {
    hide AdmitClient, Continue, Concluded, Called, SameTables, Grown, Execute, Bears, Authenticate, RefusalRows,
         SubjectNamed, Granted, WellFormed, TokensDistinct, TokensPlain, ActionOf, IntentAsked, BeforeGrant, StatusOf;
    forall c ensures Authenticate(app.credentials, authorization) == Authenticated(c)
                     <==> c in app.credentials && Bears(authorization, c.token) {
      AuthenticatesExactly(app.credentials, authorization, c);
    }
    match Authenticate(app.credentials, authorization)
    case Broken => ConcludesRefusal(env, luck, [], Crashed, db);
    case Unauthenticated =>
      var a := Admit(app, authorization, route);
      ConcludesRefusal(env, luck, a.drafts, a.response, db);
    case Authenticated(client) => ClientDeniesExactly(app, env, luck, authorization, route, db, client);
  }

  lemma ClientDeniesExactly(app: App, env: Env, luck: Luck, authorization: Option<string>, route: Route, db: Db,
                            client: Credential)
    requires Authenticate(app.credentials, authorization) == Authenticated(client)
    requires CanAppend(luck, 0, 1, db.book.audit)
    ensures var response := Handled(app, env, luck, authorization, route, db).1;
            && response != Refusal(401, "unauthenticated")
            && (response == Refusal(403, "insufficient-scope")
                <==> BeforeGrant(app, route)
                     && !Granted(client.grants, ActionOf(route), route.workspaceId, IntentAsked(route)))
  {
    hide AdmitClient, Continue, Concluded, Called, SameTables, Grown, Execute, Authenticate, SubjectNamed, Granted,
         WellFormed, ActionOf, IntentAsked, BeforeGrant, StatusOf, LeavesRow;
    ClientDenied(app, route, client);
    ClientRefusals(app, route, client);
    match AdmitClient(app, route, client)
    case Refuse(drafts, refusal) =>
      assert CanAppend(luck, 0, |drafts|, db.book.audit);
      ConcludesRefusal(env, luck, drafts, refusal, db);
    case CallStore(_, request) =>
      var (stored, outcome) := Called(env, luck, request, db);
      var c := Continue(app, route, AdmitClient(app, route, client).client, outcome);
      NoErrorDenies(app, route, AdmitClient(app, route, client).client, outcome);
      ConcludesRefusal(env, luck, c.drafts, c.response, stored);
  }
}
