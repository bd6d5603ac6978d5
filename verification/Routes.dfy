/** What each route does, from its header to its rows, on any database: exactly when it succeeds, what
    its reply then says, and what it leaves in the tables and in the audit. */
module Routes {
  import opened Wrappers
  import opened JsonObjects
  import opened Models
  import opened Crypto
  import opened Signing
  import opened Tables
  import opened StoreSpec
  import opened Stutter
  import opened Auth
  import opened Api
  import opened Service
  import opened Effects
  import AnyTables
  import Decisions

  // ----- What a request asks for ------------------------------------------------------------

  function ActionOf(route: Route): string
  {
    match route
    case WriteRoute(_, _, _, _, _, _, _) => "secret.write"
    case RotateRoute(_, _, _, _, _, _, _) => "secret.rotate"
    case GenerateRoute(_, _, _, _, _, _, _) => "secret.generate-delegation-key"
    case ResolveRoute(_, _, _, _, _, _) => "secret.resolve"
    case RevokeVersionRoute(_, _, _, _, _, _) => "secret.revoke"
    case RevokeRoute(_, _, _, _) => "secret.revoke"
    case MetadataRoute(_, _, _) => "secret.metadata"
  }

  /** The intent a route names: the client must be granted its action for it. */
  function IntentAsked(route: Route): Option<string>
  {
    match route
    case WriteRoute(_, _, _, intent, _, _, _) => Some(intent)
    case RotateRoute(_, _, _, intent, _, _, _) => Some(intent)
    case ResolveRoute(_, _, intent, _, _, _) => Some(intent)
    case GenerateRoute(_, _, _, purpose, _, _, _) => IntentFor(purpose)
    case _ => None
  }

  /** The value is base64 of at most 64 KiB, and no label names another intent. */
  predicate ValueFits(value: Option<Bytes>, labels: Labels, intent: string)
  {
    value.Some? && |value.value| <= 65536 && ("intent" in labels ==> labels["intent"] == intent)
  }

  /** What the body of a request must satisfy. */
  predicate WellFormed(app: App, route: Route)
  {
    && (IntentAsked(route).Some? ==> IntentAllowed(IntentAsked(route).value))
    && match route
       case WriteRoute(_, _, value, intent, labels, _, _) => ValueFits(value, labels, intent)
       case RotateRoute(_, _, value, intent, labels, _, _) => ValueFits(value, labels, intent)
       case GenerateRoute(_, _, reference, purpose, issuer, caller, _) =>
         IntentFor(purpose).Some? && IsIdentifier(issuer) && IsIdentifier(caller) && app.validReference(reference)
       case _ => true
  }

  /** The store call a well-formed request asks for. */
  function Asked(app: App, route: Route): Request
    requires WellFormed(app, route)
  {
    match route
    case WriteRoute(w, s, value, intent, labels, _, _) => Create(w, s, value.value, labels["intent" := intent])
    case RotateRoute(w, s, value, intent, labels, _, _) =>
      Rotate(w, s, value.value, labels["intent" := intent], Some(intent))
    case GenerateRoute(w, s, reference, purpose, issuer, caller, correlation) =>
      Generate(w, s, reference, purpose, IntentFor(purpose).value, issuer, caller, correlation, app.providerId)
    case ResolveRoute(w, s, intent, caller, correlation, version) =>
      ResolveForUse(w, s, intent, caller, correlation, version)
    case RevokeVersionRoute(w, s, version, number, caller, correlation) =>
      RevokeVersion(w, s, version, number, caller, correlation, app.providerId)
    case RevokeRoute(w, s, _, _) => RevokeSecret(w, s)
    case MetadataRoute(w, s, version) => ReadMetadata(w, s, version)
  }

  /** The header bears the token of this declared client, and it is granted what the route does. */
  ghost predicate MayAsk(app: App, authorization: Option<string>, route: Route, client: Credential)
  {
    && client in app.credentials && Bears(authorization, client.token)
    && Granted(client.grants, ActionOf(route), route.workspaceId, IntentAsked(route))
  }

  lemma AsksValue(app: App, route: Route, client: Credential)
    requires route.WriteRoute? || route.RotateRoute?
    ensures var a := AdmitClient(app, route, client);
            a.CallStore? <==> WellFormed(app, route) && Granted(client.grants, ActionOf(route), route.workspaceId,
                                                                IntentAsked(route))
    ensures var a := AdmitClient(app, route, client); a.CallStore? ==> a == CallStore(client, Asked(app, route))
  {
    hide IntentAllowed, Granted, Recorded;
  }

  /** A client's request reaches the store exactly when it is well-formed and granted, and then with
      exactly the call it asks for. */
  lemma AsksExactly(app: App, route: Route, client: Credential)
    ensures var a := AdmitClient(app, route, client);
            a.CallStore? <==> WellFormed(app, route) && Granted(client.grants, ActionOf(route), route.workspaceId,
                                                                IntentAsked(route))
    ensures var a := AdmitClient(app, route, client); a.CallStore? ==> a == CallStore(client, Asked(app, route))
  {
    hide IntentAllowed, Granted, Recorded, IntentFor, IsIdentifier, CanonicalLabels, ValueFits, Label;
    if route.WriteRoute? || route.RotateRoute? {
      AsksValue(app, route, client);
    } else if route.GenerateRoute? {
      SigningIntentsAllowed(route.purpose);
    }
  }

  // ----- When a request succeeds ------------------------------------------------------------

  /** The kind of reply a route's store call gives. */
  predicate ReplyFits(route: Route, reply: Reply)
  {
    if route.GenerateRoute? then reply.Generated?
    else if route.ResolveRoute? then reply.Resolved?
    else if route.RevokeRoute? then reply.RevokedAll?
    else reply.Stored?
  }

  lemma RepliesFit(app: App, env: Env, draw: Draw, route: Route, db: Db)
    requires WellFormed(app, route)
    ensures var outcome := Execute(env, draw, Asked(app, route), db).1;
            outcome.Success? ==> ReplyFits(route, outcome.value)
  {
    hide WellFormed, ApplyAll, MetadataFromRow, DecryptRow, RevokeRows, ReadGeneration, IntentFor, FamilyLabels, Label,
         LabelsClean, VersionRevocationRecorded, SelectRow, LatestRow;
  }

  /** What the client is sent of a store reply. */
  function Sent(reply: Reply): Response
  {
    match reply
    case Stored(m) => MetadataReply(m)
    case RevokedAll(all) => RevokedReply(all)
    case Resolved(m, value) => ValueReply(m, value)
    case Generated(key) => KeyReply(key)
    case Appended => Crashed
  }

  lemma NamesAgree(route: Route, client: Credential)
    ensures SubjectNamed(route, client) == CallerOf(route, client) && CorrelationNamed(route) == CorrelationOf(route)
  {
  }

  lemma ContinuesFitting(app: App, route: Route, client: Credential, reply: Reply)
    requires ReplyFits(route, reply)
    ensures Continue(app, route, client, Success(reply))
            == Continuation(RowsAbout(app, route, client, VersionsSent(route, Sent(reply))), Sent(reply))
  {
    hide IntentFor, IntentAllowed;
    var drafts := Continue(app, route, client, Success(reply)).drafts;
    var all := VersionsSent(route, Sent(reply));
    assert |drafts| == |all|;
    forall i | 0 <= i < |all| ensures drafts[i] == RowAbout(app, route, client, all[i]) {
      NamesAgree(route, client);
      if route.RevokeRoute? {
        assert RecordedAs(route, all[i]) == (SecretReferenceRevoked, DurableIntent(all[i]));
      }
    }
    assert drafts == RowsAbout(app, route, client, all);
  }

  lemma FailureIsRefusal(app: App, route: Route, client: Credential, e: Error)
    ensures IsRefusal(Continue(app, route, client, Failure(e)).response)
  {
    hide Draft, CallerOf, CorrelationOf, IntentFor;
  }

  /** The request passed its checks, its store call succeeded and committed, and storage takes its audit rows. */
  ghost predicate Succeeds(app: App, env: Env, luck: Luck, authorization: Option<string>, route: Route, db: Db,
                           client: Credential)
  {
    && MayAsk(app, authorization, route, client) && WellFormed(app, route)
    && var (stored, outcome) := Execute(env, luck.draw, Asked(app, route), db);
    && outcome.Success? && (luck.commits || route.MetadataRoute?)
    && CanAppend(luck, 0, |VersionsSent(route, Sent(outcome.value))|, stored.book.audit)
  }

  lemma CallSucceeds(env: Env, luck: Luck, request: Request, db: Db)
    ensures var (after, outcome) := Called(env, luck, request, db);
            outcome.Success? <==> Execute(env, luck.draw, request, db).1.Success?
                                  && (luck.commits || request.ReadMetadata?)
    ensures var (after, outcome) := Called(env, luck, request, db);
            outcome.Success? ==> (after, outcome) == Execute(env, luck.draw, request, db)
  {
    hide PlanOf, ApplyAll;
  }

  lemma ClientSucceeds(app: App, env: Env, luck: Luck, authorization: Option<string>, route: Route, db: Db,
                       client: Credential)
    requires Authenticate(app.credentials, authorization) == Authenticated(client)
    requires client in app.credentials && Bears(authorization, client.token)
    ensures !IsRefusal(Handled(app, env, luck, authorization, route, db).1)
            <==> Succeeds(app, env, luck, authorization, route, db, client)
  {
    hide AdmitClient, Continue, Concluded, Called, SameTables, CanAppend, Grown, Execute, WellFormed, Granted,
         VersionsSent, Bears, ActionOf, IntentAsked, Authenticate;
    AsksExactly(app, route, client);
    RefusedIsRefusal(app, authorization, route);
    match Admit(app, authorization, route)
    case Refuse(drafts, response) => ConcludesInTheAudit(env, luck, Continuation(drafts, response), db);
    case CallStore(_, request) =>
      var (stored, outcome) := Called(env, luck, request, db);
      CallSucceeds(env, luck, request, db);
      RepliesFit(app, env, luck.draw, route, db);
      ConcludesInTheAudit(env, luck, Continue(app, route, client, outcome), stored);
      if outcome.Success? {
        ContinuesFitting(app, route, client, outcome.value);
      } else {
        FailureIsRefusal(app, route, client, outcome.error);
      }
  }

  /** With or without a header, on any database: a request is answered without a refusal exactly when a
      declared client whose token it bears may ask it, it is well-formed, the call it asks for succeeds
      and commits, and storage takes its audit rows. */
  lemma SucceedsExactly(app: App, env: Env, luck: Luck, authorization: Option<string>, route: Route, db: Db)
    requires TokensDistinct(app.credentials) && TokensPlain(app.credentials)
    ensures !IsRefusal(Handled(app, env, luck, authorization, route, db).1)
            <==> exists client :: Succeeds(app, env, luck, authorization, route, db, client)
  {
    hide Admit, AdmitClient, Continue, Concluded, Called, Execute, WellFormed, Succeeds, Authenticate, Handled, Bears;
    if !IsRefusal(Handled(app, env, luck, authorization, route, db).1) {
      var client := SuccessHasClient(app, env, luck, authorization, route, db);
    }
    forall client | Succeeds(app, env, luck, authorization, route, db, client)
      ensures !IsRefusal(Handled(app, env, luck, authorization, route, db).1)
    {
      SucceedsMeansMayAsk(app, env, luck, authorization, route, db, client);
      AuthenticatesExactly(app.credentials, authorization, client);
      ClientSucceeds(app, env, luck, authorization, route, db, client);
    }
  }

  lemma SucceedsMeansMayAsk(app: App, env: Env, luck: Luck, authorization: Option<string>, route: Route, db: Db,
                            client: Credential)
    requires Succeeds(app, env, luck, authorization, route, db, client)
    ensures MayAsk(app, authorization, route, client) && WellFormed(app, route)
  {
  }

  lemma UnauthenticatedIsRefused(app: App, env: Env, luck: Luck, authorization: Option<string>, route: Route, db: Db)
    requires !Authenticate(app.credentials, authorization).Authenticated?
    ensures IsRefusal(Handled(app, env, luck, authorization, route, db).1)
  {
    hide Authenticate, AdmitClient, Continue, Called, Execute;
    ConcludesInTheAudit(env, luck, Continuation(Admit(app, authorization, route).drafts,
                                                Admit(app, authorization, route).response), db);
  }

  /** Whoever the credentials are, a success has a client that may ask for it. */
  lemma SuccessHasClient(app: App, env: Env, luck: Luck, authorization: Option<string>, route: Route, db: Db)
    returns (client: Credential)
    requires !IsRefusal(Handled(app, env, luck, authorization, route, db).1)
    ensures Authenticate(app.credentials, authorization) == Authenticated(client)
    ensures Succeeds(app, env, luck, authorization, route, db, client)
  {
    hide Admit, Continue, Concluded, Called, Execute, WellFormed, Succeeds, Bears, Handled, FirstWith, Strip;
    var who := Authenticate(app.credentials, authorization);
    if !who.Authenticated? {
      UnauthenticatedIsRefused(app, env, luck, authorization, route, db);
    } else {
      client := who.credential;
      BearerIsMember(app.credentials, authorization, client);
      ClientSucceeds(app, env, luck, authorization, route, db, client);
    }
  }

  lemma BearerIsMember(credentials: seq<Credential>, authorization: Option<string>, client: Credential)
    requires Authenticate(credentials, authorization) == Authenticated(client)
    ensures client in credentials && Bears(authorization, client.token)
  {
    hide FirstWith, Strip;
    FirstWithIsMember(credentials, Strip(authorization.value[|BEARER|..]));
  }

  // ----- What a success leaves behind -------------------------------------------------------

  /** The subject an audit row names: the one the request gives, or else the client's. */
  function SubjectNamed(route: Route, client: Credential): string
  {
    if route.WriteRoute? || route.RotateRoute? then
      if route.caller.Some? && route.caller.value != "" then route.caller.value else client.subject
    else if route.RevokeRoute? then
      if route.caller.Some? then route.caller.value else client.subject
    else if route.MetadataRoute? then client.subject
    else route.callerSubject
  }

  function CorrelationNamed(route: Route): string
  {
    if route.WriteRoute? || route.RotateRoute? then
      if route.correlation.Some? && route.correlation.value != "" then route.correlation.value else "not-provided"
    else if route.RevokeRoute? then
      if route.correlation.Some? then route.correlation.value else "not-provided"
    else if route.MetadataRoute? then "not-provided"
    else route.correlationId
  }

  /** The code and intent under which a success is recorded for the version it concerns. */
  function RecordedAs(route: Route, m: Metadata): (AuditCode, Option<string>)
  {
    match route
    case WriteRoute(_, _, _, intent, _, _, _) => (SecretStored, Some(intent))
    case RotateRoute(_, _, _, intent, _, _, _) => (SecretRotated, Some(intent))
    case ResolveRoute(_, _, intent, _, _, _) => (SecretResolved, Some(intent))
    case MetadataRoute(_, _, _) => (MetadataRead, None)
    case _ =>
      (SecretReferenceRevoked,
       if "intent" in m.labels && IntentAllowed(m.labels["intent"]) then Some(m.labels["intent"]) else None)
  }

  /** The audit row that says what this request did with this version. */
  function RowAbout(app: App, route: Route, client: Credential, m: Metadata): AuditRecord
  {
    var (code, intent) := RecordedAs(route, m);
    AuditRecord(app.providerId, route.workspaceId, route.secretId, Some(m.versionId), intent,
                SubjectNamed(route, client), CorrelationNamed(route), code, "")
  }

  /** The versions a handler records: none when the store's own transaction has. */
  function VersionsSent(route: Route, response: Response): seq<Metadata>
  {
    if route.GenerateRoute? || route.RevokeVersionRoute? then []
    else
      match response
      case MetadataReply(m) => [m]
      case ValueReply(m, _) => [m]
      case RevokedReply(all) => all
      case _ => []
  }

  function RowsAbout(app: App, route: Route, client: Credential, all: seq<Metadata>): (rows: seq<AuditRecord>)
    ensures |rows| == |all| && forall i | 0 <= i < |all| :: rows[i] == RowAbout(app, route, client, all[i])
  {
    seq(|all|, i requires 0 <= i < |all| => RowAbout(app, route, client, all[i]))
  }

  /** The client is sent the store's reply; the tables are those its call left, and the audit gained
      beside the call's own row exactly one new row for each version sent. */
  ghost predicate Done(app: App, env: Env, luck: Luck, route: Route, db: Db, client: Credential, after: Db,
                       response: Response)
    requires WellFormed(app, route)
  {
    var (stored, outcome) := Execute(env, luck.draw, Asked(app, route), db);
    && outcome.Success? && ReplyFits(route, outcome.value) && response == Sent(outcome.value)
    && SameTables(stored, after)
    && Grown(luck, RowsAbout(app, route, client, VersionsSent(route, response)), 0, stored.book.audit, after.book.audit)
  }

  /** What a success means, on any database. */
  lemma SuccessDoes(app: App, env: Env, luck: Luck, authorization: Option<string>, route: Route, db: Db)
    returns (client: Credential)
    requires !IsRefusal(Handled(app, env, luck, authorization, route, db).1)
    ensures MayAsk(app, authorization, route, client) && WellFormed(app, route)
    ensures var (after, response) := Handled(app, env, luck, authorization, route, db);
            Done(app, env, luck, route, db, client, after, response)
  {
    hide AdmitClient, Continue, Concluded, SameTables, CanAppend, Grown, Execute, WellFormed, Granted, VersionsSent,
         Bears, ActionOf, IntentAsked, Authenticate, MayAsk, RowsAbout, IsRefusal;
    client := SuccessHasClient(app, env, luck, authorization, route, db);
    SucceedsMeansMayAsk(app, env, luck, authorization, route, db, client);
    SuccessIsAudited(app, env, luck, authorization, route, db);
    var request := Asked(app, route);
    AdmitsClient(app, authorization, route, client);
    RepliesFit(app, env, luck.draw, route, db);
    CallSucceeds(env, luck, request, db);
    ContinuesFitting(app, route, client, Called(env, luck, request, db).1.value);
  }

  lemma AdmitsClient(app: App, authorization: Option<string>, route: Route, client: Credential)
    requires Authenticate(app.credentials, authorization) == Authenticated(client)
    requires MayAsk(app, authorization, route, client) && WellFormed(app, route)
    ensures Admit(app, authorization, route) == CallStore(client, Asked(app, route))
  {
    hide AdmitClient, Authenticate, Asked, WellFormed, Granted, Bears, ActionOf, IntentAsked;
    AsksExactly(app, route, client);
  }

  // ----- Writing ----------------------------------------------------------------------------

  /** The audit gained exactly one row, about this version. */
  ghost predicate OneRow(app: App, luck: Luck, route: Route, client: Credential, m: Metadata, db: Db, after: Db)
  {
    var id := luck.draws(0).eventId;
    && id !in db.book.audit
    && after.book.audit
       == db.book.audit[id := RowAbout(app, route, client, m).(occurredAt := luck.draws(0).auditedAt)]
  }

  lemma GrownByOne(luck: Luck, row: AuditRecord, before: map<string, AuditRecord>, after: map<string, AuditRecord>)
    requires Grown(luck, [row], 0, before, after)
    ensures var id := luck.draws(0).eventId;
            id !in before && after == before[id := row.(occurredAt := luck.draws(0).auditedAt)]
  {
    var id, rows := luck.draws(0).eventId, [row];
    assert rows[0] == row;
    assert id !in before && id in after && after[id] == row.(occurredAt := luck.draws(0).auditedAt);
  }

  /** Storing, on any database: the reply describes one new row that holds the value sent, sealed under
      the labels sent with the intent among them; a rotation takes the number after the latest, which
      has the same intent; and exactly one audit row says so. */
  lemma StoresAsAsked(app: App, env: Env, luck: Luck, authorization: Option<string>, route: Route, db: Db)
    requires route.WriteRoute? || route.RotateRoute?
    requires !IsRefusal(Handled(app, env, luck, authorization, route, db).1)
    ensures var (after, response) := Handled(app, env, luck, authorization, route, db);
            && response.MetadataReply?
            && var m := response.metadata;
            && route.value.Some? && |route.value.value| <= 65536 && IntentAllowed(route.intent)
            && AnyTables.IsNew(env, luck.draw, m, route.workspaceId, route.secretId, m.versionNumber,
                               route.labels["intent" := route.intent])
            && ("intent" in route.labels ==> route.labels["intent"] == route.intent)
            && KeyOf(m) !in db.versions && KeyOf(m) in after.versions
            && after.versions == db.versions[KeyOf(m) := after.versions[KeyOf(m)]]
            && AnyTables.HoldsSealed(env, after.versions[KeyOf(m)], m, route.value.value)
            && (if route.WriteRoute? then m.versionNumber == 1
                else
                  exists k :: IsLatest(db.versions, SecretKey(route.workspaceId, route.secretId), k)
                              && m.versionNumber == db.versions[k].versionNumber + 1
                              && var latest := MetadataFromRow(k, db.versions[k]);
                                 latest.Some? && Label(latest.value.labels, "intent") == Some(route.intent))
            && after.book.pins == db.book.pins && after.book.generations == db.book.generations
            && after.book.revocations == db.book.revocations
            && exists client :: MayAsk(app, authorization, route, client)
                                && OneRow(app, luck, route, client, m, db, after)
  {
    hide Handled, IsRefusal, MayAsk, IntentAllowed, Execute, RowAbout, Grown, AnyTables.IsNew, AnyTables.HoldsSealed,
         IsLatest, MetadataFromRow, Label;
    var client := SuccessDoes(app, env, luck, authorization, route, db);
    var (after, response) := Handled(app, env, luck, authorization, route, db);
    AnyTables.WriteAddsOneRow(env, luck.draw, Asked(app, route), db);
    var m := response.metadata;
    assert RowsAbout(app, route, client, [m]) == [RowAbout(app, route, client, m)];
    GrownByOne(luck, RowAbout(app, route, client, m), db.book.audit, after.book.audit);
  }

  // ----- Reading ----------------------------------------------------------------------------

  /** The correlation id is pinned to this version, for this intent and caller. */
  predicate PinNames(pins: map<CorrelationKey, Pin>, at: CorrelationKey, secretId: string, intent: string,
                     callerSubject: string, versionId: string)
  {
    at in pins && pins[at] == Pin(secretId, intent, callerSubject, versionId, pins[at].selectedAt)
  }

  lemma ResolveStore(env: Env, draw: Draw, request: Request, db: Db, m: Metadata, value: Bytes)
    requires request.ResolveForUse? && Execute(env, draw, request, db).1 == Success(Resolved(m, value))
    ensures var after := Execute(env, draw, request, db).0;
            var at := CorrelationKey(request.workspaceId, request.correlationId);
            var pinned := at in db.book.pins;
            && m.workspaceId == request.workspaceId && m.secretId == request.secretId
            && (request.version.Some? ==> m.versionId == request.version.value)
            && Decisions.Serves(env, db, KeyOf(m), request.intent, m, value)
            && (!pinned && request.version.None? ==>
                  IsLatest(db.versions, SecretKey(request.workspaceId, request.secretId), KeyOf(m)))
            && after.versions == db.versions && after.book == db.book.(pins := after.book.pins)
            && PinNames(after.book.pins, at, request.secretId, request.intent, request.callerSubject, m.versionId)
            && (after.book.pins
                == if pinned then db.book.pins
                   else db.book.pins[at := Pin(request.secretId, request.intent, request.callerSubject, m.versionId,
                                               draw.now)])
  {
    hide IsLatest, ReadForUse, MetadataFromRow, Decisions.Serves;
    var at := CorrelationKey(request.workspaceId, request.correlationId);
    Decisions.ResolveRepliesExactly(env, draw, request, db, m, value);
    var k := Decisions.ChosenRow(request, db).value;
    assert k == KeyOf(m) by {
      assert Decisions.Serves(env, db, k, request.intent, m, value);
      ServesNames(env, db, k, request.intent, m, value);
    }
    if at !in db.book.pins {
      AnyTables.FirstResolveAddsItsPin(env, draw, request, db);
    } else {
      PinnedResolveKeeps(env, draw, request, db);
    }
  }

  lemma ServesNames(env: Env, db: Db, k: VersionKey, intent: string, m: Metadata, value: Bytes)
    requires Decisions.Serves(env, db, k, intent, m, value)
    ensures k == KeyOf(m)
  {
  }

  lemma PinnedResolveKeeps(env: Env, draw: Draw, request: Request, db: Db)
    requires request.ResolveForUse? && CorrelationKey(request.workspaceId, request.correlationId) in db.book.pins
    ensures Execute(env, draw, request, db).0 == db
  {
    hide ReadForUse;
  }

  /** Resolving, on any database: the value sent is what the row unseals that the request asked for, the
      row is active and has the intent, and without a pin and a named version it is the latest;
      afterwards the correlation id is pinned to that version, and exactly one audit row says so. */
  lemma ResolvesAsAsked(app: App, env: Env, luck: Luck, authorization: Option<string>, route: Route, db: Db)
    requires route.ResolveRoute?
    requires !IsRefusal(Handled(app, env, luck, authorization, route, db).1)
    ensures var (after, response) := Handled(app, env, luck, authorization, route, db);
            && response.ValueReply?
            && var (m, at) := (response.metadata, CorrelationKey(route.workspaceId, route.correlationId));
            && m.workspaceId == route.workspaceId && m.secretId == route.secretId && IntentAllowed(route.intent)
            && (route.version.Some? ==> m.versionId == route.version.value)
            && Decisions.Serves(env, db, KeyOf(m), route.intent, m, response.value)
            && (at !in db.book.pins && route.version.None? ==>
                  IsLatest(db.versions, SecretKey(route.workspaceId, route.secretId), KeyOf(m)))
            && after.versions == db.versions && after.book.generations == db.book.generations
            && after.book.revocations == db.book.revocations
            && PinNames(after.book.pins, at, route.secretId, route.intent, route.callerSubject, m.versionId)
            && (after.book.pins
                == if at in db.book.pins then db.book.pins
                   else db.book.pins[at := Pin(route.secretId, route.intent, route.callerSubject, m.versionId,
                                               luck.draw.now)])
            && exists client :: MayAsk(app, authorization, route, client)
                                && OneRow(app, luck, route, client, m, db, after)
  {
    hide Handled, IsRefusal, MayAsk, IntentAllowed, Execute, RowAbout, Grown, Decisions.Serves, IsLatest;
    var client := SuccessDoes(app, env, luck, authorization, route, db);
    var (after, response) := Handled(app, env, luck, authorization, route, db);
    var m := response.metadata;
    ResolveStore(env, luck.draw, Asked(app, route), db, m, response.value);
    assert RowsAbout(app, route, client, [m]) == [RowAbout(app, route, client, m)];
    GrownByOne(luck, RowAbout(app, route, client, m), db.book.audit, after.book.audit);
  }

  /** Which value a resolve is answered with, on any database, exactly: the one the pinned, named or latest
      row unseals, if the client may ask, the pin is the request's own, and storage takes pin and row. */
  lemma ResolveAnswersExactly(app: App, env: Env, luck: Luck, authorization: Option<string>, route: Route, db: Db,
                              m: Metadata, value: Bytes)
    requires route.ResolveRoute?
    requires TokensDistinct(app.credentials) && TokensPlain(app.credentials)
    ensures var request := ResolveForUse(route.workspaceId, route.secretId, route.intent, route.callerSubject,
                                         route.correlationId, route.version);
            Handled(app, env, luck, authorization, route, db).1 == ValueReply(m, value)
            <==> (exists client :: MayAsk(app, authorization, route, client)) && IntentAllowed(route.intent)
                 && Decisions.PinAllows(request, db.book) && Decisions.ChosenRow(request, db).Some?
                 && Decisions.Serves(env, db, Decisions.ChosenRow(request, db).value, route.intent, m, value)
                 && luck.commits && CanAppend(luck, 0, 1, db.book.audit)
  {
    hide Handled, MayAsk, IntentAllowed, Execute, RowAbout, Grown, CanAppend, Decisions.Serves, TokensDistinct,
         TokensPlain, Decisions.PinAllows, Decisions.ChosenRow;
    var response := Handled(app, env, luck, authorization, route, db).1;
    SucceedsExactly(app, env, luck, authorization, route, db);
    if WellFormed(app, route) {
      var request := Asked(app, route);
      Decisions.ResolveRepliesExactly(env, luck.draw, request, db, m, value);
      if Execute(env, luck.draw, request, db).1 == Success(Resolved(m, value)) {
        ResolveStore(env, luck.draw, request, db, m, value);
        forall client ensures Succeeds(app, env, luck, authorization, route, db, client)
                              <==> MayAsk(app, authorization, route, client) && luck.commits
                                   && CanAppend(luck, 0, 1, db.book.audit) {
          assert VersionsSent(route, ValueReply(m, value)) == [m];
        }
      }
    }
    if !IsRefusal(response) {
      var client := SuccessDoes(app, env, luck, authorization, route, db);
    }
  }

  lemma ReadStore(env: Env, draw: Draw, request: Request, db: Db, m: Metadata)
    requires request.ReadMetadata? && Execute(env, draw, request, db).1 == Success(Stored(m))
    ensures Execute(env, draw, request, db).0 == db
    ensures m.workspaceId == request.workspaceId && m.secretId == request.secretId
    ensures KeyOf(m) in db.versions && Decisions.ReadsAs(KeyOf(m), db.versions[KeyOf(m)], m)
    ensures if request.version.Some? then m.versionId == request.version.value
            else IsLatest(db.versions, SecretKey(request.workspaceId, request.secretId), KeyOf(m))
  {
    hide MetadataFromRow, IsLatest, LoadLabels;
    var secret := SecretKey(request.workspaceId, request.secretId);
    Decisions.SelectedInSecret(db.versions, secret, request.version);
    var k := SelectRow(db.versions, secret, request.version).value;
    Decisions.ReadsExactly(k, db.versions[k], m);
    assert KeyOf(m) == k;
  }

  /** Reading metadata, on any database: the reply is what the columns of the named or the latest row
      say, no other table changes, and exactly one audit row says so. */
  lemma ReadsAsAsked(app: App, env: Env, luck: Luck, authorization: Option<string>, route: Route, db: Db)
    requires route.MetadataRoute?
    requires !IsRefusal(Handled(app, env, luck, authorization, route, db).1)
    ensures var (after, response) := Handled(app, env, luck, authorization, route, db);
            && response.MetadataReply?
            && var m := response.metadata;
            && m.workspaceId == route.workspaceId && m.secretId == route.secretId
            && KeyOf(m) in db.versions && Decisions.ReadsAs(KeyOf(m), db.versions[KeyOf(m)], m)
            && (if route.version.Some? then m.versionId == route.version.value
                else IsLatest(db.versions, SecretKey(route.workspaceId, route.secretId), KeyOf(m)))
            && SameTables(db, after)
            && exists client :: MayAsk(app, authorization, route, client)
                                && OneRow(app, luck, route, client, m, db, after)
  {
    hide Handled, IsRefusal, MayAsk, RowAbout, Grown, IsLatest, Execute, Decisions.ReadsAs;
    var client := SuccessDoes(app, env, luck, authorization, route, db);
    var (after, response) := Handled(app, env, luck, authorization, route, db);
    var m := response.metadata;
    ReadStore(env, luck.draw, Asked(app, route), db, m);
    assert RowsAbout(app, route, client, [m]) == [RowAbout(app, route, client, m)];
    GrownByOne(luck, RowAbout(app, route, client, m), db.book.audit, after.book.audit);
  }

  // ----- Generating -------------------------------------------------------------------------

  /** The generation record and the store's own audit row of a generated key. */
  ghost predicate KeyRecorded(app: App, route: Route, draw: Draw, key: GeneratedKey, db: Db, after: Db)
    requires route.GenerateRoute? && IntentFor(route.purpose).Some?
  {
    var at := CorrelationKey(route.workspaceId, route.correlationId);
    && (at in db.book.generations <==> key.replayed) && at in after.book.generations
    && var g := after.book.generations[at];
    && g == Generation(route.secretId, route.secretReference, route.purpose, route.issuer, route.callerSubject,
                       key.metadata.versionId, key.keyId, "ed25519", key.publicPem, g.generatedAt)
    && after.book.generations == db.book.generations[at := g]
    && draw.eventId !in db.book.audit
    && after.book.audit
       == db.book.audit[draw.eventId :=
            AuditRecord(app.providerId, route.workspaceId, route.secretId, Some(key.metadata.versionId),
                        Some(IntentFor(route.purpose).value), route.callerSubject, route.correlationId,
                        if key.replayed then DelegationKeyGenerationReplayed else DelegationKeyGenerated,
                        draw.auditedAt)]
  }

  /** The key names what the request asked for, and its version row holds a private key that derives it. */
  ghost predicate KeyAnswers(env: Env, route: Route, key: GeneratedKey, after: Db)
    requires route.GenerateRoute? && IntentFor(route.purpose).Some?
  {
    var m := key.metadata;
    && key == GeneratedKey(m, route.secretReference, route.purpose, route.issuer, route.correlationId,
                           "gateway-" + env.primitives.sha256Hex(key.publicPem), "ed25519", key.publicPem, key.replayed)
    && m.workspaceId == route.workspaceId && m.secretId == route.secretId && m.status == Active
    && m.labels == map["intent" := IntentFor(route.purpose).value, "purpose" := route.purpose,
                       "issuer" := route.issuer, "key_id" := key.keyId]
    && KeyOf(m) in after.versions && MetadataFromRow(KeyOf(m), after.versions[KeyOf(m)]) == Some(m)
  }

  lemma FirstKey(app: App, env: Env, draw: Draw, route: Route, db: Db, key: GeneratedKey)
    requires route.GenerateRoute? && WellFormed(app, route)
    requires CorrelationKey(route.workspaceId, route.correlationId) !in db.book.generations
    requires Execute(env, draw, Asked(app, route), db).1 == Success(Generated(key))
    ensures var after := Execute(env, draw, Asked(app, route), db).0;
            && KeyRecorded(app, route, draw, key, db, after) && KeyAnswers(env, route, key, after)
            && key.metadata.versionNumber == 1 && key.publicPem == env.primitives.publicPem(draw.seed)
            && KeyOf(key.metadata) !in db.versions
            && after.versions == db.versions[KeyOf(key.metadata) := after.versions[KeyOf(key.metadata)]]
            && AnyTables.HoldsSealed(env, after.versions[KeyOf(key.metadata)], key.metadata,
                                     env.primitives.privatePem(draw.seed))
            && after.book.pins == db.book.pins && after.book.revocations == db.book.revocations
  {
    hide Execute, IntentFor, MetadataFromRow, DecryptRow, IsIdentifier, IntentAllowed;
    AnyTables.FirstGenerationAddsThreeRows(env, draw, Asked(app, route), db);
  }

  lemma ReplayedKey(app: App, env: Env, draw: Draw, route: Route, db: Db, key: GeneratedKey)
    requires route.GenerateRoute? && WellFormed(app, route)
    requires CorrelationKey(route.workspaceId, route.correlationId) in db.book.generations
    requires Execute(env, draw, Asked(app, route), db).1 == Success(Generated(key))
    ensures var after := Execute(env, draw, Asked(app, route), db).0;
            && KeyRecorded(app, route, draw, key, db, after) && KeyAnswers(env, route, key, after)
            && after == db.(book := db.book.(audit := after.book.audit))
            && exists pem :: Decisions.Unseals(env, db.versions[KeyOf(key.metadata)], key.metadata, pem)
                             && env.primitives.loadPrivate(pem).Some?
                             && env.primitives.publicPem(env.primitives.loadPrivate(pem).value) == key.publicPem
  {
    hide Execute, IntentFor, MetadataFromRow, IsIdentifier, IntentAllowed, LoadLabels, Decisions.Unseals;
    var at := CorrelationKey(route.workspaceId, route.correlationId);
    var g := db.book.generations[at];
    var k := VersionKey(route.workspaceId, g.secretId, g.versionId);
    Decisions.GenerationReplaysExactly(env, draw, Asked(app, route), db);
    Decisions.ReadsExactly(k, db.versions[k], key.metadata);
    assert KeyOf(key.metadata) == k;
    assert db.book.generations == db.book.generations[at := g];
  }

  lemma GrownByNone(luck: Luck, before: map<string, AuditRecord>, after: map<string, AuditRecord>)
    requires Grown(luck, [], 0, before, after)
    ensures before == after
  {
  }

  /** Generating, on any database: the reply is a key whose row, record and audit row all name what the
      request asked for. A first request adds version 1, which holds the private key drawn; a retry adds
      nothing but its audit row, and its row still unseals a private key that derives the public one. */
  lemma GeneratesAsAsked(app: App, env: Env, luck: Luck, authorization: Option<string>, route: Route, db: Db)
    requires route.GenerateRoute?
    requires !IsRefusal(Handled(app, env, luck, authorization, route, db).1)
    ensures var (after, response) := Handled(app, env, luck, authorization, route, db);
            && response.KeyReply? && IntentFor(route.purpose).Some?
            && var key := response.key;
            var k := KeyOf(key.metadata);
            && KeyRecorded(app, route, luck.draw, key, db, after) && KeyAnswers(env, route, key, after)
            && after.book.pins == db.book.pins && after.book.revocations == db.book.revocations
            && (if !key.replayed then
                  && key.metadata.versionNumber == 1 && key.publicPem == env.primitives.publicPem(luck.draw.seed)
                  && k !in db.versions && after.versions == db.versions[k := after.versions[k]]
                  && AnyTables.HoldsSealed(env, after.versions[k], key.metadata,
                                           env.primitives.privatePem(luck.draw.seed))
                else
                  && after.versions == db.versions
                  && exists pem :: Decisions.Unseals(env, db.versions[k], key.metadata, pem)
                                   && env.primitives.loadPrivate(pem).Some?
                                   && env.primitives.publicPem(env.primitives.loadPrivate(pem).value) == key.publicPem)
            && exists client :: MayAsk(app, authorization, route, client)
  {
    hide Handled, IsRefusal, MayAsk, Execute, RowAbout, Grown, IntentFor, IntentAllowed, IsIdentifier, KeyRecorded,
         KeyAnswers, AnyTables.HoldsSealed, Decisions.Unseals;
    var client := SuccessDoes(app, env, luck, authorization, route, db);
    var (after, response) := Handled(app, env, luck, authorization, route, db);
    var (stored, outcome) := Execute(env, luck.draw, Asked(app, route), db);
    assert RowsAbout(app, route, client, VersionsSent(route, response)) == [];
    GrownByNone(luck, stored.book.audit, after.book.audit);
    assert after == stored;
    if CorrelationKey(route.workspaceId, route.correlationId) in db.book.generations {
      ReplayedKey(app, env, luck.draw, route, db, response.key);
      RecordedSaysReplayed(app, route, luck.draw, response.key, db, after);
    } else {
      FirstKey(app, env, luck.draw, route, db, response.key);
      RecordedSaysReplayed(app, route, luck.draw, response.key, db, after);
    }
  }

  lemma RecordedSaysReplayed(app: App, route: Route, draw: Draw, key: GeneratedKey, db: Db, after: Db)
    requires route.GenerateRoute? && IntentFor(route.purpose).Some?
    requires KeyRecorded(app, route, draw, key, db, after)
    ensures key.replayed <==> CorrelationKey(route.workspaceId, route.correlationId) in db.book.generations
  {
  }

  // ----- Revoking ---------------------------------------------------------------------------

  /** The row, the record and the store's own audit row of one revoked version. */
  ghost predicate RevocationStands(env: Env, request: Request, draw: Draw, m: Metadata, db: Db, after: Db)
    requires request.RevokeVersion?
  {
    var at := CorrelationKey(request.workspaceId, request.correlationId);
    var k := VersionKey(request.workspaceId, request.secretId, request.versionId);
    var replayed := at in db.book.revocations;
    && KeyOf(m) == k && m.versionNumber == request.versionNumber && m.status == Revoked
    && k in db.versions && k in after.versions && MetadataFromRow(k, after.versions[k]) == Some(m)
    && after.versions == db.versions[k := after.versions[k]]
    && MetadataFromRow(k, db.versions[k]).Some?
    && (if replayed then after.versions == db.versions
        else
          && MetadataFromRow(k, db.versions[k]).value.status == Active
          && AnyTables.RowRevokedTo(env, k, db.versions[k], after.versions[k], draw.now))
    && after.book.pins == db.book.pins && after.book.generations == db.book.generations
    && at in after.book.revocations
    && var r := after.book.revocations[at];
    && r == Revocation(request.secretId, request.versionId, request.versionNumber, request.callerSubject, r.revokedAt)
    && (!replayed ==> r.revokedAt == draw.now)
    && after.book.revocations == db.book.revocations[at := r]
    && draw.eventId !in db.book.audit
    && after.book.audit
       == db.book.audit[draw.eventId :=
            AuditRecord(request.providerId, request.workspaceId, request.secretId, Some(request.versionId),
                        Label(m.labels, "intent"), request.callerSubject, request.correlationId,
                        if replayed then SecretVersionRevocationReplayed else SecretVersionRevoked, draw.auditedAt)]
  }

  lemma RevocationStore(env: Env, draw: Draw, request: Request, db: Db, m: Metadata)
    requires request.RevokeVersion? && Execute(env, draw, request, db).1 == Success(Stored(m))
    ensures RevocationStands(env, request, draw, m, db, Execute(env, draw, request, db).0)
  {
    hide Execute, LoadLabels, DecryptRow, Label;
    var at := CorrelationKey(request.workspaceId, request.correlationId);
    var k := VersionKey(request.workspaceId, request.secretId, request.versionId);
    if at in db.book.revocations {
      Decisions.RevocationReplaysExactly(env, draw, request, db);
      assert db.book.revocations == db.book.revocations[at := db.book.revocations[at]];
      assert db.versions == db.versions[k := db.versions[k]];
    } else {
      AnyTables.FirstRevocationChangesOneRow(env, draw, request, db);
    }
  }

  /** Revoking one version, on any database: the reply is the metadata of the version, number and secret
      named, its row reads so afterwards, and the record and the audit row name the request's caller
      and correlation id. */
  lemma RevokesVersionAsAsked(app: App, env: Env, luck: Luck, authorization: Option<string>, route: Route, db: Db)
    requires route.RevokeVersionRoute?
    requires !IsRefusal(Handled(app, env, luck, authorization, route, db).1)
    ensures var (after, response) := Handled(app, env, luck, authorization, route, db);
            && response.MetadataReply?
            && RevocationStands(env, RevokeVersion(route.workspaceId, route.secretId, route.versionId,
                                                   route.versionNumber, route.callerSubject, route.correlationId,
                                                   app.providerId),
                                luck.draw, response.metadata, db, after)
            && exists client :: MayAsk(app, authorization, route, client)
  {
    hide Handled, IsRefusal, MayAsk, Execute, RowAbout, Grown, RevocationStands;
    var client := SuccessDoes(app, env, luck, authorization, route, db);
    var (after, response) := Handled(app, env, luck, authorization, route, db);
    var (stored, outcome) := Execute(env, luck.draw, Asked(app, route), db);
    assert RowsAbout(app, route, client, VersionsSent(route, response)) == [];
    GrownByNone(luck, stored.book.audit, after.book.audit);
    assert after == stored;
    RevocationStore(env, luck.draw, Asked(app, route), db, response.metadata);
  }

  /** Revoking a whole reference, on any database: the reply is that of the store call, and lists each
      row of the secret once, in ascending order, as it reads afterwards: revoked. No other row changes. */
  lemma RevokesAsAsked(app: App, env: Env, luck: Luck, authorization: Option<string>, route: Route, db: Db, i: nat,
                       j: nat, k: VersionKey)
    requires route.RevokeRoute?
    requires !IsRefusal(Handled(app, env, luck, authorization, route, db).1)
    ensures var (after, response) := Handled(app, env, luck, authorization, route, db);
            var secret := SecretKey(route.workspaceId, route.secretId);
            && response.RevokedReply?
            && var all := response.all;
            && Execute(env, luck.draw, RevokeSecret(route.workspaceId, route.secretId), db).1
               == Success(RevokedAll(all))
            && |all| == |RowsOf(db.versions, secret)| > 0
            && (i < |all| ==>
                  && KeyOf(all[i]) in RowsOf(db.versions, secret) && all[i].status == Revoked
                  && KeyOf(all[i]) in after.versions
                  && MetadataFromRow(KeyOf(all[i]), after.versions[KeyOf(all[i])]) == Some(all[i]))
            && (i < j < |all| ==>
                  all[i].versionNumber <= all[j].versionNumber && KeyOf(all[i]) != KeyOf(all[j]))
            && (k in after.versions <==> k in db.versions)
            && (k in db.versions ==>
                  if SecretOf(k) == secret then
                    MetadataFromRow(k, db.versions[k]).Some?
                    && AnyTables.RowRevokedTo(env, k, db.versions[k], after.versions[k], luck.draw.now)
                  else after.versions[k] == db.versions[k])
            && after.book.pins == db.book.pins && after.book.generations == db.book.generations
            && after.book.revocations == db.book.revocations
  {
    hide Handled, IsRefusal, MayAsk, Execute, RowAbout, Grown, MetadataFromRow, DecryptRow, RowsOf;
    var client := SuccessDoes(app, env, luck, authorization, route, db);
    var (after, response) := Handled(app, env, luck, authorization, route, db);
    var secret := SecretKey(route.workspaceId, route.secretId);
    AnyTables.RevokeIsAllOrNothing(env, luck.draw, db, secret);
    AnyTables.RevokeRepliesInOrder(env, luck.draw, db, secret, i, j);
    AnyTables.RevokeChangesItsRows(env, luck.draw, db, secret, k);
    if i < |response.all| {
      AnyTables.RevokeChangesItsRows(env, luck.draw, db, secret, KeyOf(response.all[i]));
      RowsOfSecret(db.versions, secret, KeyOf(response.all[i]));
    }
  }

  lemma RowsOfSecret(versions: map<VersionKey, VersionRow>, secret: SecretKey, k: VersionKey)
    requires k in RowsOf(versions, secret)
    ensures k in versions && SecretOf(k) == secret
  {
  }

  /** Its audit, on any database: the audit gained one new row of its own for every version of the reply,
      with the version's id and its intent where that is an allowed one, the caller and the correlation id
      the request gives or else the client's subject and a placeholder; and it gained no other row. */
  lemma RevocationRecordsEveryVersion(app: App, env: Env, luck: Luck, authorization: Option<string>, route: Route,
                                      db: Db)
    requires route.RevokeRoute?
    requires !IsRefusal(Handled(app, env, luck, authorization, route, db).1)
    ensures var (after, response) := Handled(app, env, luck, authorization, route, db);
            && response.RevokedReply?
            && exists client ::
                 && MayAsk(app, authorization, route, client)
                 && RevokedRows(app, luck, route, client, response.all, db.book.audit, after.book.audit)
  {
    hide Handled, IsRefusal, MayAsk, Execute, Grown, IntentAllowed;
    var client := SuccessDoes(app, env, luck, authorization, route, db);
    var (after, response) := Handled(app, env, luck, authorization, route, db);
    AnyTables.RevokeChangesItsRows(env, luck.draw, db, SecretKey(route.workspaceId, route.secretId),
                                   VersionKey("", "", ""));
    GrownByRevoked(app, luck, route, client, response.all, db.book.audit, after.book.audit);
  }

  ghost predicate RevokedRows(app: App, luck: Luck, route: Route, client: Credential, all: seq<Metadata>,
                              before: map<string, AuditRecord>, after: map<string, AuditRecord>)
    requires route.RevokeRoute?
  {
    && after.Keys == before.Keys + (set i: nat | i < |all| :: luck.draws(i).eventId)
    && (forall id | id in before :: after[id] == before[id])
    && (forall i: nat, j: nat | i < j < |all| :: luck.draws(i).eventId != luck.draws(j).eventId)
    && (forall i: nat | i < |all| ::
          && luck.draws(i).eventId !in before
          && after[luck.draws(i).eventId]
             == AuditRecord(app.providerId, route.workspaceId, route.secretId, Some(all[i].versionId),
                            if "intent" in all[i].labels && IntentAllowed(all[i].labels["intent"])
                            then Some(all[i].labels["intent"]) else None,
                            if route.caller.Some? then route.caller.value else client.subject,
                            if route.correlation.Some? then route.correlation.value else "not-provided",
                            SecretReferenceRevoked, luck.draws(i).auditedAt))
  }

  lemma GrownByRevoked(app: App, luck: Luck, route: Route, client: Credential, all: seq<Metadata>,
                       before: map<string, AuditRecord>, after: map<string, AuditRecord>)
    requires route.RevokeRoute? && Grown(luck, RowsAbout(app, route, client, all), 0, before, after)
    ensures RevokedRows(app, luck, route, client, all, before, after)
  {
    hide IntentAllowed;
    var rows := RowsAbout(app, route, client, all);
    forall i: nat | i < |all|
      ensures luck.draws(i).eventId in after
              && after[luck.draws(i).eventId]
                 == RowAbout(app, route, client, all[i]).(occurredAt := luck.draws(i).auditedAt)
    {
      assert rows[i] == RowAbout(app, route, client, all[i]);
    }
    assert after.Keys == before.Keys + (set i: nat | i < |all| :: luck.draws(i).eventId);
  }
}
