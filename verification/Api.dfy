/** The seven routes: what a request must pass before its store call, and what the handler makes of
    the store's answer: the audit records it appends, and the response. */
module Api {
  import opened Wrappers
  import opened JsonObjects
  import opened Models
  import opened Signing
  import opened Auth

  const MAX_SECRET_BYTES := 64 * 1024

  predicate IntentAllowed(intent: string)
  {
    intent in {
      "application.control-token", "cloudflare.api-token", "cloudflare.tunnel-token",
      "docker.local-socket-access-marker", "docker.remote-tls.ca-certificate", "docker.remote-tls.client-certificate",
      "docker.remote-tls.client-key", "gateway.probe-signing-key", "gateway.node-control-transit-signing-key",
      "gateway.node-health-read-transit-signing-key", "oci.pull-credential", "postgres.password",
      "secrets.custody-root-key", "secrets.provider-credentials-document", "workload.node-control-signing-key",
      "workload.node-health-read-signing-key" }
  }

  const WRITE := "secret.write"
  const ROTATE := "secret.rotate"
  const RESOLVE := "secret.resolve"
  const REVOKE := "secret.revoke"
  const READ := "secret.metadata"
  const GENERATE := "secret.generate-delegation-key"

  /** `_IDENTIFIER`. */
  predicate IsIdentifier(s: string)
  {
    1 <= |s| <= 200 && IsAlphanumeric(s[0])
    && forall i | 1 <= i < |s| :: IsAlphanumeric(s[i]) || s[i] in {'.', '_', ':', '-'}
  }

  predicate IsAlphanumeric(c: char)
  {
    'A' <= c <= 'Z' || 'a' <= c <= 'z' || '0' <= c <= '9'
  }

  /** One application: its credentials, its provider id, and the reference syntax of the URL library. */
  datatype App = App(credentials: seq<Credential>, providerId: string, validReference: string -> bool)

  /** A request that passed the framework's validation; `value` is `None` when it is not base64. */
  datatype Route =
    | WriteRoute(workspaceId: string, secretId: string, value: Option<Bytes>, intent: string, labels: Labels,
                  caller: Option<string>, correlation: Option<string>)
    | RotateRoute(workspaceId: string, secretId: string, value: Option<Bytes>, intent: string, labels: Labels,
                   caller: Option<string>, correlation: Option<string>)
    | ResolveRoute(workspaceId: string, secretId: string, intent: string, callerSubject: string, correlationId: string,
                    version: Option<string>)
    | RevokeVersionRoute(workspaceId: string, secretId: string, versionId: string, versionNumber: int,
                          callerSubject: string, correlationId: string)
    | RevokeRoute(workspaceId: string, secretId: string, caller: Option<string>, correlation: Option<string>)
    | GenerateRoute(workspaceId: string, secretId: string, secretReference: string, purpose: string,
                            issuer: string, callerSubject: string, correlationId: string)
    | MetadataRoute(workspaceId: string, secretId: string, version: Option<string>)

  /** `Crashed` is an exception that no clause of the handler catches. */
  datatype Response =
    | MetadataReply(metadata: Metadata)
    | KeyReply(key: GeneratedKey)
    | ValueReply(metadata: Metadata, value: Bytes)
    | RevokedReply(all: seq<Metadata>)
    | Refusal(status: int, code: string)
    | Crashed

  const AUDIT_UNAVAILABLE := Refusal(503, "audit-unavailable")

  datatype Admission =
    | CallStore(client: Credential, request: Request)
    | Refuse(drafts: seq<AuditRecord>, response: Response)

  /** A handler after its store call: audit records still to append, and then the response. */
  datatype Continuation = Continuation(drafts: seq<AuditRecord>, response: Response)

  function Or(given: Option<string>, fallback: string): string
  {
    if given.Some? && given.value != "" then given.value else fallback
  }

  function IfGiven(given: Option<string>, fallback: string): string
  {
    if given.Some? then given.value else fallback
  }

  const NOT_PROVIDED := "not-provided"

  /** An audit record before its time is drawn. */
  function Draft(app: App, route: Route, version: Option<string>, intent: Option<string>, caller: string,
                 correlation: string, code: AuditCode): AuditRecord
  {
    AuditRecord(app.providerId, route.workspaceId, route.secretId, version, intent, caller, correlation, code, "")
  }

  function CallerOf(route: Route, client: Credential): string
  {
    match route
    case WriteRoute(_, _, _, _, _, caller, _) => Or(caller, client.subject)
    case RotateRoute(_, _, _, _, _, caller, _) => Or(caller, client.subject)
    case RevokeRoute(_, _, caller, _) => IfGiven(caller, client.subject)
    case MetadataRoute(_, _, _) => client.subject
    case ResolveRoute(_, _, _, caller, _, _) => caller
    case RevokeVersionRoute(_, _, _, _, caller, _) => caller
    case GenerateRoute(_, _, _, _, _, caller, _) => caller
  }

  function CorrelationOf(route: Route): string
  {
    match route
    case WriteRoute(_, _, _, _, _, _, correlation) => Or(correlation, NOT_PROVIDED)
    case RotateRoute(_, _, _, _, _, _, correlation) => Or(correlation, NOT_PROVIDED)
    case RevokeRoute(_, _, _, correlation) => IfGiven(correlation, NOT_PROVIDED)
    case MetadataRoute(_, _, _) => NOT_PROVIDED
    case ResolveRoute(_, _, _, _, correlation, _) => correlation
    case RevokeVersionRoute(_, _, _, _, _, correlation) => correlation
    case GenerateRoute(_, _, _, _, _, _, correlation) => correlation
  }

  /** A refusal that is recorded first. */
  function Recorded(app: App, route: Route, client: Credential, version: Option<string>, intent: Option<string>,
                    status: int, code: string): Continuation
  {
    Continuation([Draft(app, route, version, intent, CallerOf(route, client), CorrelationOf(route),
                        RejectedRequest(code))],
                 Refusal(status, code))
  }

  function Refused(c: Continuation): Admission
  {
    Refuse(c.drafts, c.response)
  }

  // ----- Before the store call --------------------------------------------------------------

  /** `_canonical_intent_labels`; `None` is its conflict. */
  function CanonicalLabels(labels: Labels, intent: string): Option<Labels>
  {
    var supplied := Label(labels, "intent");
    if supplied.Some? && supplied.value != intent then None else Some(labels["intent" := intent])
  }

  /** The checks `write_secret` and `rotate_secret` share. */
  function AdmitValue(app: App, route: Route, client: Credential, action: string): Admission
    requires route.WriteRoute? || route.RotateRoute?
  {
    if !IntentAllowed(route.intent) then
      Refused(Recorded(app, route, client, None, Some(route.intent), 400, "unsupported-intent"))
    else if !Granted(client.grants, action, route.workspaceId, Some(route.intent)) then
      Refused(Recorded(app, route, client, None, Some(route.intent), 403, "insufficient-scope"))
    else
      match CanonicalLabels(route.labels, route.intent)
      case None => Refused(Recorded(app, route, client, None, Some(route.intent), 400, "intent-label-conflict"))
      case Some(labels) =>
        if route.value.None? then Refuse([], Refusal(400, "invalid-secret-material"))
        else if |route.value.value| > MAX_SECRET_BYTES then Refuse([], Refusal(400, "secret-material-too-large"))
        else if route.WriteRoute? then
          CallStore(client, Create(route.workspaceId, route.secretId, route.value.value, labels))
        else
          CallStore(client, Rotate(route.workspaceId, route.secretId, route.value.value, labels, Some(route.intent)))
  }

  function AdmitGenerate(app: App, route: Route, client: Credential): Admission
    requires route.GenerateRoute?
  {
    match IntentFor(route.purpose)
    case None => Refused(Recorded(app, route, client, None, None, 400, "invalid-delegation-key-generation"))
    case Some(intent) =>
      if !IsIdentifier(route.issuer) || !IsIdentifier(route.callerSubject)
         || !app.validReference(route.secretReference) then
        Refused(Recorded(app, route, client, None, Some(intent), 400, "invalid-delegation-key-generation"))
      else if !Granted(client.grants, GENERATE, route.workspaceId, Some(intent)) then
        Refused(Recorded(app, route, client, None, Some(intent), 403, "insufficient-scope"))
      else
        CallStore(client, Generate(route.workspaceId, route.secretId, route.secretReference, route.purpose, intent,
                                   route.issuer, route.callerSubject, route.correlationId, app.providerId))
  }

  function AdmitResolve(app: App, route: Route, client: Credential): Admission
    requires route.ResolveRoute?
  {
    if !IntentAllowed(route.intent) then
      Refused(Recorded(app, route, client, route.version, Some(route.intent), 400, "unsupported-intent"))
    else if !Granted(client.grants, RESOLVE, route.workspaceId, Some(route.intent)) then
      Refused(Recorded(app, route, client, route.version, Some(route.intent), 403, "insufficient-scope"))
    else
      CallStore(client, ResolveForUse(route.workspaceId, route.secretId, route.intent, route.callerSubject,
                                      route.correlationId, route.version))
  }

  function AdmitClient(app: App, route: Route, client: Credential): Admission
  {
    match route
    case WriteRoute(_, _, _, _, _, _, _) => AdmitValue(app, route, client, WRITE)
    case RotateRoute(_, _, _, _, _, _, _) => AdmitValue(app, route, client, ROTATE)
    case GenerateRoute(_, _, _, _, _, _, _) => AdmitGenerate(app, route, client)
    case ResolveRoute(_, _, _, _, _, _) => AdmitResolve(app, route, client)
    case RevokeVersionRoute(w, s, id, number, caller, correlation) =>
      if !Granted(client.grants, REVOKE, w, None) then Refuse([], Refusal(403, "insufficient-scope"))
      else CallStore(client, RevokeVersion(w, s, id, number, caller, correlation, app.providerId))
    case RevokeRoute(w, s, _, _) =>
      if !Granted(client.grants, REVOKE, w, None) then Refuse([], Refusal(403, "insufficient-scope"))
      else CallStore(client, RevokeSecret(w, s))
    case MetadataRoute(w, s, version) =>
      if !Granted(client.grants, READ, w, None) then Refuse([], Refusal(403, "insufficient-scope"))
      else CallStore(client, ReadMetadata(w, s, version))
  }

  const NOBODY := Credential("unauthenticated", "", [])

  /** Everything a handler does before its store call; only the resolve route records a request that
      is not authenticated. */
  function Admit(app: App, authorization: Option<string>, route: Route): Admission
  {
    match Authenticate(app.credentials, authorization)
    case Broken => Refuse([], Crashed)
    case Unauthenticated =>
      if route.ResolveRoute? then
        Refuse([Draft(app, route, route.version, Some(route.intent), NOBODY.subject, route.correlationId,
                      RejectedRequest("unauthenticated"))], Refusal(401, "unauthenticated"))
      else Refuse([], Refusal(401, "unauthenticated"))
    case Authenticated(client) => AdmitClient(app, route, client)
  }

  // ----- After the store call ---------------------------------------------------------------

  /** `_durable_metadata_intent`. */
  function DurableIntent(m: Metadata): Option<string>
  {
    var intent := Label(m.labels, "intent");
    if intent.Some? && IntentAllowed(intent.value) then intent else None
  }

  function RevokedDrafts(app: App, route: Route, client: Credential, all: seq<Metadata>): (drafts: seq<AuditRecord>)
    ensures |drafts| == |all|
  {
    seq(|all|, i requires 0 <= i < |all| =>
      Draft(app, route, Some(all[i].versionId), DurableIntent(all[i]), CallerOf(route, client), CorrelationOf(route),
            SecretReferenceRevoked))
  }

  /** A reply recorded under the version it concerns. */
  function Answered(app: App, route: Route, client: Credential, m: Metadata, intent: Option<string>, code: AuditCode,
                    response: Response): Continuation
  {
    Continuation([Draft(app, route, Some(m.versionId), intent, CallerOf(route, client), CorrelationOf(route), code)],
                 response)
  }

  function AfterWrite(app: App, route: Route, client: Credential, outcome: Outcome): Continuation
    requires route.WriteRoute?
  {
    match outcome
    case Success(Stored(m)) => Answered(app, route, client, m, Some(route.intent), SecretStored, MetadataReply(m))
    case Failure(MetadataInvalid) => Recorded(app, route, client, None, Some(route.intent), 400, "invalid-metadata")
    case Failure(AlreadyExists) => Recorded(app, route, client, None, Some(route.intent), 409, "secret-already-exists")
    case _ => Continuation([], Crashed)
  }

  function AfterRotate(app: App, route: Route, client: Credential, outcome: Outcome): Continuation
    requires route.RotateRoute?
  {
    match outcome
    case Success(Stored(m)) => Answered(app, route, client, m, Some(route.intent), SecretRotated, MetadataReply(m))
    case Failure(Missing) => Recorded(app, route, client, None, Some(route.intent), 404, "secret-missing")
    case Failure(MetadataInvalid) => Recorded(app, route, client, None, Some(route.intent), 400, "invalid-metadata")
    case Failure(AlreadyExists) => Recorded(app, route, client, None, Some(route.intent), 409,
                                            "secret-version-conflict")
    case Failure(IntentMismatch) => Recorded(app, route, client, None, Some(route.intent), 409,
                                             "secret-intent-conflict")
    case _ => Continuation([], Crashed)
  }

  function AfterGenerate(app: App, route: Route, client: Credential, outcome: Outcome): Continuation
    requires route.GenerateRoute?
  {
    var intent := IntentFor(route.purpose);
    match outcome
    case Success(Generated(key)) => Continuation([], KeyReply(key))
    case Failure(GenerationConflict) => Recorded(app, route, client, None, intent, 409,
                                                 "generation-correlation-conflict")
    case Failure(AlreadyExists) => Recorded(app, route, client, None, intent, 409, "secret-already-exists")
    case Failure(SecretRevoked) => Recorded(app, route, client, None, intent, 409, "secret-revoked")
    case Failure(Tampered) => Recorded(app, route, client, None, intent, 503, "integrity-failure")
    case Failure(AuditUnavailable) => Continuation([], Refusal(503, "audit-unavailable"))
    case _ => Continuation([], Crashed)
  }

  function AfterResolve(app: App, route: Route, client: Credential, outcome: Outcome): Continuation
    requires route.ResolveRoute?
  {
    var intent := Some(route.intent);
    match outcome
    case Success(Resolved(m, value)) => Answered(app, route, client, m, intent, SecretResolved, ValueReply(m, value))
    case Failure(Missing) => Recorded(app, route, client, route.version, intent, 404, "secret-missing")
    case Failure(SecretRevoked) => Recorded(app, route, client, route.version, intent, 409, "secret-revoked")
    case Failure(ResolutionConflict) =>
      Recorded(app, route, client, route.version, intent, 409, "resolution-correlation-conflict")
    case Failure(IntentMismatch) => Recorded(app, route, client, route.version, intent, 403, "secret-intent-mismatch")
    case Failure(Tampered) => Recorded(app, route, client, route.version, intent, 503, "integrity-failure")
    case _ => Continuation([], Crashed)
  }

  function AfterRevokeVersion(outcome: Outcome): Continuation
  {
    match outcome
    case Success(Stored(m)) => Continuation([], MetadataReply(m))
    case Failure(RevocationConflict) => Continuation([], Refusal(409, "version-revocation-conflict"))
    case Failure(SecretRevoked) => Continuation([], Refusal(409, "secret-revoked"))
    case Failure(Missing) => Continuation([], Refusal(404, "secret-missing"))
    case Failure(Tampered) => Continuation([], Refusal(503, "integrity-failure"))
    case Failure(AuditUnavailable) => Continuation([], Refusal(503, "audit-unavailable"))
    case _ => Continuation([], Crashed)
  }

  function AfterRevoke(app: App, route: Route, client: Credential, outcome: Outcome): Continuation
  {
    match outcome
    case Success(RevokedAll(all)) => Continuation(RevokedDrafts(app, route, client, all), RevokedReply(all))
    case Failure(Missing) => Recorded(app, route, client, None, None, 404, "secret-missing")
    case Failure(Tampered) => Recorded(app, route, client, None, None, 503, "integrity-failure")
    case _ => Continuation([], Crashed)
  }

  function AfterRead(app: App, route: Route, client: Credential, outcome: Outcome): Continuation
    requires route.MetadataRoute?
  {
    match outcome
    case Success(Stored(m)) => Answered(app, route, client, m, None, MetadataRead, MetadataReply(m))
    case Failure(Missing) => Recorded(app, route, client, route.version, None, 404, "secret-missing")
    case _ => Continuation([], Crashed)
  }

  /** What a handler makes of the store's answer; an error it does not catch crashes it. */
  function Continue(app: App, route: Route, client: Credential, outcome: Outcome): Continuation
  {
    match route
    case WriteRoute(_, _, _, _, _, _, _) => AfterWrite(app, route, client, outcome)
    case RotateRoute(_, _, _, _, _, _, _) => AfterRotate(app, route, client, outcome)
    case GenerateRoute(_, _, _, _, _, _, _) => AfterGenerate(app, route, client, outcome)
    case ResolveRoute(_, _, _, _, _, _) => AfterResolve(app, route, client, outcome)
    case RevokeVersionRoute(_, _, _, _, _, _) => AfterRevokeVersion(outcome)
    case RevokeRoute(_, _, _, _) => AfterRevoke(app, route, client, outcome)
    case MetadataRoute(_, _, _) => AfterRead(app, route, client, outcome)
  }

  // ----- Facts about single requests --------------------------------------------------------

  lemma {:induction false} FirstWithIsMember(credentials: seq<Credential>, presented: string)
    ensures var r := FirstWith(credentials, presented);
            r.Authenticated? ==> r.credential in credentials && r.credential.token == presented
  {
    if credentials != [] {
      FirstWithIsMember(credentials[1..], presented);
    }
  }

  /** What an admitted store call has passed: the client is a declared credential, granted the route's
      action, for the route's allowed intent where it has one. */
  predicate Vetted(request: Request, client: Credential)
  {
    match request
    case Create(w, _, _, labels) =>
      var i := Label(labels, "intent");
      i.Some? && IntentAllowed(i.value) && Granted(client.grants, WRITE, w, i)
    case Rotate(w, _, _, labels, expected) =>
      var i := Label(labels, "intent");
      i.Some? && expected == i && IntentAllowed(i.value) && Granted(client.grants, ROTATE, w, i)
    case Generate(w, _, _, purpose, intent, _, _, _, _) =>
      IntentFor(purpose) == Some(intent) && IntentAllowed(intent) && Granted(client.grants, GENERATE, w, Some(intent))
    case ResolveForUse(w, _, intent, _, _, _) =>
      IntentAllowed(intent) && Granted(client.grants, RESOLVE, w, Some(intent))
    case RevokeVersion(w, _, _, _, _, _, _) => Granted(client.grants, REVOKE, w, None)
    case RevokeSecret(w, _) => Granted(client.grants, REVOKE, w, None)
    case ReadMetadata(w, _, _) => Granted(client.grants, READ, w, None)
    case Resolve(_, _, _) => false
    case AppendAudit(_) => false
  }

  lemma SigningIntentsAllowed(purpose: string)
    ensures IntentFor(purpose).Some? ==> IntentAllowed(IntentFor(purpose).value)
  {
  }

  lemma CanonicalIntent(labels: Labels, intent: string)
    ensures var r := CanonicalLabels(labels, intent); r.Some? ==> Label(r.value, "intent") == Some(intent)
  {
  }

  lemma AdmittedClientVetted(app: App, route: Route, client: Credential)
    ensures var a := AdmitClient(app, route, client); a.CallStore? ==> a.client == client && Vetted(a.request, client)
  {
    hide IntentAllowed, Granted, IntentFor, CanonicalLabels, Label, Recorded, IsIdentifier;
    if route.WriteRoute? || route.RotateRoute? {
      CanonicalIntent(route.labels, route.intent);
    } else if route.GenerateRoute? {
      SigningIntentsAllowed(route.purpose);
    }
  }

  /** A request reaches the store only from a declared credential whose token its header bears, and only
      if that credential was granted it. */
  lemma AdmittedIsVetted(app: App, authorization: Option<string>, route: Route)
    ensures var a := Admit(app, authorization, route);
            a.CallStore? ==>
              && a.client in app.credentials && Bears(authorization, a.client.token)
              && Vetted(a.request, a.client)
  {
    hide AdmitClient, Vetted, FirstWith, Strip;
    var r := Authenticate(app.credentials, authorization);
    if r.Authenticated? {
      FirstWithIsMember(app.credentials, Strip(authorization.value[|BEARER|..]));
      AdmittedClientVetted(app, route, r.credential);
    }
  }
}
