/** Handlers at work: requests of many clients interleaved between their store calls and their audit
    appends, with failing appends, failing storage and crashes. What the audit then accounts for. */
module Handlers {
  import opened Wrappers
  import opened JsonObjects
  import opened Models
  import opened Crypto
  import opened Tables
  import opened StoreSpec
  import opened Runs
  import opened Tally
  import opened History
  import opened Auth
  import opened Api
  import opened ApiRuns
  import opened Vault

  /** Whose request a handler serves and which event its store call was; a request refused before its
      store call has none. */
  datatype Origin = NoCall | CallBy(client: Credential, call: nat)

  /** A handler between its steps; `row` is the event id of the audit row it appended last. */
  datatype Session =
    | Idle
    | Calling(route: Route, client: Credential, request: Request)
    | Auditing(drafts: seq<AuditRecord>, response: Response, origin: Origin)
    | Finished(response: Response, row: Option<string>, origin: Origin)

  datatype Answer = Answer(response: Response, row: Option<string>, origin: Origin)

  /** The last four fields only remember: the responses given, the stored versions whose audit row was
      never written, the calls made on the database, and the client each was made for. */
  datatype World = World(db: Db, sessions: map<nat, Session>, answers: seq<Answer>, lost: nat, events: seq<Event>,
                         callers: seq<Option<Credential>>)

  datatype Action =
    | Arrive(client: nat, authorization: Option<string>, route: Route)
    | Store(client: nat, keyVersion: string, draw: Draw)
    | StoreFails(client: nat, inAudit: bool)
    | Append(client: nat, keyVersion: string, draw: Draw)
    | AppendFails(client: nat)
    | Respond(client: nat)
    | Crash

  function SessionOf(w: World, client: nat): Session
  {
    if client in w.sessions then w.sessions[client] else Idle
  }

  function ClientOf(origin: Origin): Option<Credential>
  {
    if origin.CallBy? then Some(origin.client) else None
  }

  /** A handler with these records still to append. */
  function Proceed(drafts: seq<AuditRecord>, response: Response, row: Option<string>, origin: Origin): Session
  {
    if drafts == [] then Finished(response, row, origin) else Auditing(drafts, response, origin)
  }

  function Continued(c: Continuation, origin: Origin): Session
  {
    Proceed(c.drafts, c.response, None, origin)
  }

  const STORING := {SecretStored, SecretRotated}

  /** The handler owes the audit row of a version it stored. */
  predicate Owes(session: Session)
  {
    session.Auditing? && session.drafts != [] && session.drafts[0].code in STORING
  }

  function Debt(session: Session): nat
  {
    if Owes(session) then 1 else 0
  }

  function Owing(sessions: map<nat, Session>): set<nat>
  {
    set c | c in sessions && Owes(sessions[c])
  }

  ghost function Next(app: App, provider: Provider, w: World, a: Action): World
  {
    if a.Crash? then w.(sessions := map[], lost := w.lost + |Owing(w.sessions)|)
    else
      var c, session := a.client, SessionOf(w, a.client);
      match a
      case Arrive(_, authorization, route) =>
        if !session.Idle? then w
        else
          (match Admit(app, authorization, route)
           case CallStore(client, request) => w.(sessions := w.sessions[c := Calling(route, client, request)])
           case Refuse(drafts, response) => w.(sessions := w.sessions[c := Proceed(drafts, response, None, NoCall)]))
      case Store(_, keyVersion, draw) =>
        if !session.Calling? then w
        else
          var (db, outcome) := Execute(EnvOf(provider, keyVersion), draw, session.request, w.db);
          var origin := CallBy(session.client, |w.events|);
          var next := Continued(Continue(app, session.route, session.client, outcome), origin);
          w.(db := db, sessions := w.sessions[c := next],
             events := w.events + [Called(keyVersion, draw, session.request)],
             callers := w.callers + [ClientOf(origin)])
      case StoreFails(_, inAudit) =>
        if !session.Calling? then w
        else
          var e := if inAudit then AuditUnavailable else StorageFailure;
          var origin := CallBy(session.client, |w.events|);
          var next := Continued(Continue(app, session.route, session.client, Failure(e)), origin);
          w.(sessions := w.sessions[c := next], events := w.events + [Faulted],
             callers := w.callers + [ClientOf(origin)])
      case Append(_, keyVersion, draw) =>
        if !session.Auditing? || session.drafts == [] then w
        else
          var record := session.drafts[0].(occurredAt := draw.auditedAt);
          var (db, outcome) := Execute(EnvOf(provider, keyVersion), draw, AppendAudit(record), w.db);
          var next :=
            if outcome.Success? then Proceed(session.drafts[1..], session.response, Some(draw.eventId), session.origin)
            else Finished(AUDIT_UNAVAILABLE, None, session.origin);
          w.(db := db, sessions := w.sessions[c := next],
             lost := w.lost + (if outcome.Success? then 0 else Debt(session)),
             events := w.events + [Called(keyVersion, draw, AppendAudit(record))],
             callers := w.callers + [ClientOf(session.origin)])
      case AppendFails(_) =>
        if !session.Auditing? then w
        else
          w.(sessions := w.sessions[c := Finished(AUDIT_UNAVAILABLE, None, session.origin)],
             lost := w.lost + Debt(session), events := w.events + [Faulted],
             callers := w.callers + [ClientOf(session.origin)])
      case Respond(_) =>
        if !session.Finished? then w
        else
          w.(sessions := w.sessions[c := Idle],
             answers := w.answers + [Answer(session.response, session.row, session.origin)])
  }

  const START := World(EMPTY_DB, map[], [], 0, [], [])

  ghost function WorldAt(app: App, provider: Provider, actions: seq<Action>, n: nat): World
    requires n <= |actions|
  {
    if n == 0 then START else Next(app, provider, WorldAt(app, provider, actions, n - 1), actions[n - 1])
  }

  // ----- Sessions ---------------------------------------------------------------------------

  /** No draft mirrors a store transaction, a stored or rotated version is recorded alone, and so is a
      released value. */
  ghost predicate DraftsProper(drafts: seq<AuditRecord>, response: Response)
  {
    && (forall d | d in drafts :: d.code !in MIRRORED)
    && (forall i | 0 <= i < |drafts| :: drafts[i].code in STORING ==> |drafts| == 1)
    && (response.ValueReply? ==> |drafts| == 1 && Releases(drafts[0], response))
  }

  /** The record says that this very version was resolved for the intent it carries. */
  ghost predicate Releases(record: AuditRecord, response: Response)
    requires response.ValueReply?
  {
    var m := response.metadata;
    && record.code == SecretResolved && record.workspaceId == m.workspaceId && record.secretId == m.secretId
    && record.versionId == Some(m.versionId) && record.intent.Some? && record.intent == Label(m.labels, "intent")
  }

  ghost predicate RowReleases(db: Db, response: Response, row: Option<string>)
  {
    (row.Some? ==> row.value in db.book.audit)
    && (response.ValueReply? ==>
          row.Some? && row.value in db.book.audit && Releases(db.book.audit[row.value], response))
  }

  ghost predicate RequestOf(app: App, route: Route, client: Credential, request: Request)
  {
    AdmitClient(app, route, client) == CallStore(client, request) && client in app.credentials
  }

  ghost predicate SessionProper(app: App, db: Db, session: Session)
  {
    match session
    case Idle => true
    case Calling(route, client, request) => RequestOf(app, route, client, request)
    case Auditing(drafts, response, _) => drafts != [] && DraftsProper(drafts, response)
    case Finished(response, row, _) => RowReleases(db, response, row)
  }

  ghost predicate SessionsProper(app: App, w: World)
  {
    && (forall c | c in w.sessions :: SessionProper(app, w.db, w.sessions[c]))
    && (forall i | 0 <= i < |w.answers| :: RowReleases(w.db, w.answers[i].response, w.answers[i].row))
  }

  lemma AdmitDrafts(app: App, authorization: Option<string>, route: Route)
    ensures var a := Admit(app, authorization, route);
            && (a.CallStore? ==> RequestOf(app, route, a.client, a.request))
            && (a.Refuse? ==> DraftsProper(a.drafts, a.response) && forall d | d in a.drafts :: d.code !in STORING)
  {
    hide IntentAllowed, Granted, CanonicalLabels, IsIdentifier, FirstWith, Strip, CallerOf, CorrelationOf,
         Signing.IntentFor;
    AdmittedIsVetted(app, authorization, route);
  }

  /** The reply of a successful create or rotation is the stored metadata. */
  lemma WriteReplies(env: Env, draw: Draw, request: Request, db: Db)
    requires request.Create? || request.Rotate?
    ensures var outcome := Execute(env, draw, request, db).1; outcome.Success? ==> outcome.value.Stored?
  {
    hide LabelsClean, MetadataFromRow, ApplyAll, Label;
  }

  /** A resolved version is one of the named secret, and carries the requested intent. */
  ghost predicate ResolvesAsAsked(route: Route, outcome: Outcome)
  {
    route.ResolveRoute? && outcome.Success? && outcome.value.Resolved? ==>
      var m := outcome.value.metadata;
      m.workspaceId == route.workspaceId && m.secretId == route.secretId
        && Label(m.labels, "intent") == Some(route.intent)
  }

  lemma StoreResolvesAsAsked(app: App, env: Env, draw: Draw, route: Route, client: Credential, request: Request, db: Db)
    requires RequestOf(app, route, client, request)
    ensures ResolvesAsAsked(route, Execute(env, draw, request, db).1)
  {
    hide IntentAllowed, Granted, CanonicalLabels, IsIdentifier, Signing.IntentFor, LoadLabels, DecryptRow, LatestRow,
         Label, ApplyAll;
  }

  lemma FailuresResolveNothing(route: Route, e: Error)
    ensures ResolvesAsAsked(route, Failure(e))
  {
  }

  lemma ContinueDrafts(app: App, route: Route, client: Credential, outcome: Outcome)
    requires ResolvesAsAsked(route, outcome)
    ensures var c := Continue(app, route, client, outcome); DraftsProper(c.drafts, c.response)
  {
    hide CallerOf, CorrelationOf, DurableIntent, Signing.IntentFor;
    if route.RevokeRoute? && outcome.Success? && outcome.value.RevokedAll? {
      var drafts := RevokedDrafts(app, route, client, outcome.value.all);
      assert forall i | 0 <= i < |drafts| :: drafts[i].code == SecretReferenceRevoked;
    }
  }

  /** A handler owes an audit row exactly after a successful create or rotation. */
  lemma ContinueOwes(app: App, route: Route, client: Credential, request: Request, outcome: Outcome, origin: Origin)
    requires RequestOf(app, route, client, request)
    requires (request.Create? || request.Rotate?) && outcome.Success? ==> outcome.value.Stored?
    ensures Owes(Continued(Continue(app, route, client, outcome), origin))
            <==> (request.Create? || request.Rotate?) && outcome.Success?
  {
    hide IntentAllowed, Granted, CanonicalLabels, IsIdentifier, CallerOf, CorrelationOf, DurableIntent,
         Signing.IntentFor;
  }

  // ----- The audit only grows ---------------------------------------------------------------

  lemma {:induction false} ApplyAllKeepsAudit(db: Db, statements: seq<Statement>)
    ensures var r := ApplyAll(db, statements); r.Success? ==> Kept(db.book.audit, r.value.book.audit)
    decreases |statements|
  {
    hide NumberTaken, SecretGenerated, VersionRevocationRecorded;
    if statements != [] {
      var r := Apply(db, statements[0]);
      if r.Success? {
        ApplyAllKeepsAudit(r.value, statements[1..]);
      }
    }
  }

  lemma ExecuteKeepsAudit(env: Env, draw: Draw, request: Request, db: Db)
    ensures Kept(db.book.audit, Execute(env, draw, request, db).0.book.audit)
  {
    hide PlanOf, ApplyAll;
    ApplyAllKeepsAudit(db, PlanOf(env, draw, request, db).statements);
  }

  lemma ProperLater(app: App, before: Db, after: Db, session: Session)
    requires SessionProper(app, before, session) && Kept(before.book.audit, after.book.audit)
    ensures SessionProper(app, after, session)
  {
    hide RequestOf, DraftsProper;
  }

  // ----- Sessions stay proper ---------------------------------------------------------------

  lemma SessionReplaced(app: App, w: World, db: Db, c: nat, session: Session)
    requires SessionsProper(app, w) && Kept(w.db.book.audit, db.book.audit) && SessionProper(app, db, session)
    ensures SessionsProper(app, w.(db := db, sessions := w.sessions[c := session]))
  {
    hide SessionProper;
    forall d | d in w.sessions ensures SessionProper(app, db, w.sessions[d]) {
      ProperLater(app, w.db, db, w.sessions[d]);
    }
  }

  lemma AppendKeepsSession(app: App, env: Env, draw: Draw, db: Db, session: Session)
    requires SessionProper(app, db, session) && session.Auditing?
    ensures var record := session.drafts[0].(occurredAt := draw.auditedAt);
            var (after, outcome) := Execute(env, draw, AppendAudit(record), db);
            && Kept(db.book.audit, after.book.audit)
            && (outcome.Success? ==>
                  SessionProper(app, after,
                                Proceed(session.drafts[1..], session.response, Some(draw.eventId), session.origin)))
  {
    hide Execute;
    var record := session.drafts[0].(occurredAt := draw.auditedAt);
    AppendRecords(env, draw, record, db);
    assert forall i | 0 <= i < |session.drafts[1..]| :: session.drafts[1..][i] == session.drafts[i + 1];
  }

  lemma NextKeepsSessions(app: App, provider: Provider, w: World, a: Action)
    requires SessionsProper(app, w)
    ensures SessionsProper(app, Next(app, provider, w, a))
  {
    hide Execute, DraftsProper, RequestOf, Owing, Admit, Continue, ResolvesAsAsked;
    if !a.Crash? {
      var c, session := a.client, SessionOf(w, a.client);
      match a
      case Arrive(_, authorization, route) =>
        AdmitDrafts(app, authorization, route);
        NoValueWithoutDrafts(app, authorization, route);
        var r := Admit(app, authorization, route);
        SessionReplaced(app, w, w.db, c,
                        if r.CallStore? then Calling(route, r.client, r.request)
                        else Proceed(r.drafts, r.response, None, NoCall));
      case Store(_, keyVersion, draw) =>
        if session.Calling? {
          var (db, outcome) := Execute(EnvOf(provider, keyVersion), draw, session.request, w.db);
          ExecuteKeepsAudit(EnvOf(provider, keyVersion), draw, session.request, w.db);
          CallingProper(app, w, c);
          StoreResolvesAsAsked(app, EnvOf(provider, keyVersion), draw, session.route, session.client, session.request,
                               w.db);
          var origin := CallBy(session.client, |w.events|);
          ContinuedProper(app, db, session.route, session.client, outcome, origin);
          SessionReplaced(app, w, db, c, Continued(Continue(app, session.route, session.client, outcome), origin));
        }
      case StoreFails(_, inAudit) =>
        if session.Calling? {
          var outcome := Failure(if inAudit then AuditUnavailable else StorageFailure);
          FailuresResolveNothing(session.route, outcome.error);
          var origin := CallBy(session.client, |w.events|);
          ContinuedProper(app, w.db, session.route, session.client, outcome, origin);
          SessionReplaced(app, w, w.db, c, Continued(Continue(app, session.route, session.client, outcome), origin));
        }
      case Append(_, keyVersion, draw) =>
        if session.Auditing? {
          var env, record := EnvOf(provider, keyVersion), session.drafts[0].(occurredAt := draw.auditedAt);
          AppendKeepsSession(app, env, draw, w.db, session);
          var (db, outcome) := Execute(env, draw, AppendAudit(record), w.db);
          SessionReplaced(app, w, db, c,
                          if outcome.Success? then
                            Proceed(session.drafts[1..], session.response, Some(draw.eventId), session.origin)
                          else Finished(AUDIT_UNAVAILABLE, None, session.origin));
        }
      case AppendFails(_) =>
        if session.Auditing? {
          SessionReplaced(app, w, w.db, c, Finished(AUDIT_UNAVAILABLE, None, session.origin));
        }
      case Respond(_) => SessionReplaced(app, w, w.db, c, Idle);
    }
  }

  lemma ContinuedProper(app: App, db: Db, route: Route, client: Credential, outcome: Outcome, origin: Origin)
    requires ResolvesAsAsked(route, outcome)
    ensures SessionProper(app, db, Continued(Continue(app, route, client, outcome), origin))
  {
    hide Continue;
    ContinueDrafts(app, route, client, outcome);
  }

  lemma NoValueWithoutDrafts(app: App, authorization: Option<string>, route: Route)
    ensures var a := Admit(app, authorization, route); a.Refuse? ==> !a.response.ValueReply?
  {
    hide IntentAllowed, Granted, CanonicalLabels, IsIdentifier, FirstWith, Strip, CallerOf, CorrelationOf,
         Signing.IntentFor;
  }

  // ----- Rows belong to one response --------------------------------------------------------

  ghost predicate RowsDistinct(w: World)
  {
    && (forall i, j | 0 <= i < j < |w.answers| && w.answers[i].row.Some? && w.answers[j].row.Some? ::
          w.answers[i].row != w.answers[j].row)
    && (forall i, c | 0 <= i < |w.answers| && c in w.sessions && w.sessions[c].Finished? && w.sessions[c].row.Some? ::
          w.answers[i].row != w.sessions[c].row)
    && (forall c, d | c in w.sessions && d in w.sessions && c != d && w.sessions[c].Finished? && w.sessions[d].Finished?
                      && w.sessions[c].row.Some? ::
          w.sessions[c].row != w.sessions[d].row)
  }

  /** A session with no row, or with one no session or answer has. */
  ghost predicate RowFresh(w: World, c: nat, session: Session)
  {
    session.Finished? && session.row.Some? ==>
      && (forall i | 0 <= i < |w.answers| :: w.answers[i].row != session.row)
      && (forall d | d in w.sessions && d != c && w.sessions[d].Finished? :: w.sessions[d].row != session.row)
  }

  lemma ReplacedKeepsRows(w: World, c: nat, session: Session)
    requires RowsDistinct(w) && RowFresh(w, c, session)
    ensures RowsDistinct(w.(sessions := w.sessions[c := session]))
  {
  }

  lemma FreshRow(app: App, w: World, c: nat, session: Session)
    requires SessionsProper(app, w)
    requires session.Finished? && session.row.Some? ==> session.row.value !in w.db.book.audit
    ensures RowFresh(w, c, session)
  {
    hide Releases, RequestOf, DraftsProper;
    forall d | d in w.sessions && w.sessions[d].Finished? && w.sessions[d].row.Some?
      ensures w.sessions[d].row.value in w.db.book.audit
    {
      assert SessionProper(app, w.db, w.sessions[d]);
    }
  }

  lemma AnsweredKeepsRows(w: World, c: nat)
    requires RowsDistinct(w) && c in w.sessions && w.sessions[c].Finished?
    ensures RowsDistinct(w.(sessions := w.sessions[c := Idle],
                            answers := w.answers + [
                              Answer(w.sessions[c].response, w.sessions[c].row, w.sessions[c].origin)]))
  {
  }

  lemma NextKeepsRows(app: App, provider: Provider, w: World, a: Action)
    requires SessionsProper(app, w) && RowsDistinct(w)
    ensures RowsDistinct(Next(app, provider, w, a))
  {
    hide Execute, SessionsProper, RowsDistinct, RowFresh, Owing, Admit, Continue;
    if a.Crash? {
      NoSessionsKeepRows(w);
    } else {
      var next, c := Next(app, provider, w, a), a.client;
      if a.Respond? {
        if SessionOf(w, c).Finished? { AnsweredKeepsRows(w, c); }
      } else if next != w {
        if a.Append? {
          AppendRecords(EnvOf(provider, a.keyVersion), a.draw,
                        SessionOf(w, c).drafts[0].(occurredAt := a.draw.auditedAt), w.db);
        }
        FreshRow(app, w, c, next.sessions[c]);
        ReplacedKeepsRows(w, c, next.sessions[c]);
        RowsIgnoreDb(w.(sessions := next.sessions), next);
      }
    }
  }

  lemma RowsIgnoreDb(w: World, next: World)
    requires RowsDistinct(w) && next.sessions == w.sessions && next.answers == w.answers
    ensures RowsDistinct(next)
  {
  }

  lemma NoSessionsKeepRows(w: World)
    requires RowsDistinct(w)
    ensures RowsDistinct(w.(sessions := map[], lost := w.lost + |Owing(w.sessions)|))
  {
  }

  // ----- Conservation -----------------------------------------------------------------------

  function RowCount(db: Db, code: AuditCode): nat
  {
    |RowsWith(db.book.audit, code)|
  }

  function StoredRows(db: Db): nat
  {
    RowCount(db, SecretStored) + RowCount(db, SecretRotated) + RowCount(db, DelegationKeyGenerated)
  }

  /** Every version row has its audit row, or a handler that still owes it, or was lost track of. */
  ghost predicate Conserved(w: World)
  {
    |w.db.versions| == StoredRows(w.db) + |Owing(w.sessions)| + w.lost
  }

  lemma OwingUpdate(sessions: map<nat, Session>, c: nat, session: Session)
    ensures |Owing(sessions[c := session])|
            == |Owing(sessions)| - (if c in sessions then Debt(sessions[c]) else 0) + Debt(session)
  {
    hide Owes;
    var before, after, others := Owing(sessions), Owing(sessions[c := session]), Owing(sessions) - {c};
    assert after == if Owes(session) then others + {c} else others;
    assert before == if c in sessions && Owes(sessions[c]) then others + {c} else others;
  }

  lemma StoreConserves(app: App, provider: Provider, w: World, c: nat, keyVersion: string, draw: Draw)
    requires SessionsProper(app, w) && Conserved(w)
    ensures Conserved(Next(app, provider, w, Store(c, keyVersion, draw)))
  {
    hide SessionsProper, RequestOf, Owing, Owes, Execute, Continue, RowsWith;
    var session := SessionOf(w, c);
    if session.Calling? {
      var env, request := EnvOf(provider, keyVersion), session.request;
      var (db, outcome) := Execute(env, draw, request, w.db);
      CallingProper(app, w, c);
      CallAdds(env, draw, request, w.db, SecretStored);
      CallAdds(env, draw, request, w.db, SecretRotated);
      CallAdds(env, draw, request, w.db, DelegationKeyGenerated);
      if request.Create? || request.Rotate? {
        WriteReplies(env, draw, request, w.db);
      }
      var origin := CallBy(session.client, |w.events|);
      ContinueOwes(app, session.route, session.client, request, outcome, origin);
      OwingUpdate(w.sessions, c, Continued(Continue(app, session.route, session.client, outcome), origin));
      NotAuditing(session);
    }
  }

  lemma NotAuditing(session: Session)
    requires !session.Auditing?
    ensures !Owes(session)
  {
  }

  lemma CallingProper(app: App, w: World, c: nat)
    requires SessionsProper(app, w) && SessionOf(w, c).Calling?
    ensures var s := SessionOf(w, c); RequestOf(app, s.route, s.client, s.request) && !s.request.AppendAudit?
  {
    hide IntentAllowed, Granted, CanonicalLabels, IsIdentifier, Recorded, Signing.IntentFor;
    assert SessionProper(app, w.db, w.sessions[c]);
  }

  lemma AuditingProper(app: App, w: World, c: nat)
    requires SessionsProper(app, w) && SessionOf(w, c).Auditing?
    ensures var s := SessionOf(w, c); s.drafts != [] && DraftsProper(s.drafts, s.response)
  {
    hide DraftsProper;
    assert SessionProper(app, w.db, w.sessions[c]);
  }

  lemma TailOwesNothing(drafts: seq<AuditRecord>, response: Response, row: Option<string>, origin: Origin)
    requires drafts != [] && DraftsProper(drafts, response)
    ensures !Owes(Proceed(drafts[1..], response, row, origin))
    ensures drafts[0].code !in MIRRORED
  {
    if |drafts| > 1 {
      assert drafts[1..][0] == drafts[1];
    }
  }

  lemma AppendConserves(app: App, provider: Provider, w: World, c: nat, keyVersion: string, draw: Draw)
    requires SessionsProper(app, w) && Conserved(w)
    ensures Conserved(Next(app, provider, w, Append(c, keyVersion, draw)))
  {
    hide SessionsProper, DraftsProper, Owing, Execute, RowsWith;
    var session := SessionOf(w, c);
    if session.Auditing? {
      var env := EnvOf(provider, keyVersion);
      AuditingProper(app, w, c);
      var record := session.drafts[0].(occurredAt := draw.auditedAt);
      CallAdds(env, draw, AppendAudit(record), w.db, SecretStored);
      CallAdds(env, draw, AppendAudit(record), w.db, SecretRotated);
      CallAdds(env, draw, AppendAudit(record), w.db, DelegationKeyGenerated);
      TailOwesNothing(session.drafts, session.response, Some(draw.eventId), session.origin);
      var outcome := Execute(env, draw, AppendAudit(record), w.db).1;
      OwingUpdate(w.sessions, c,
                  if outcome.Success? then
                    Proceed(session.drafts[1..], session.response, Some(draw.eventId), session.origin)
                  else Finished(AUDIT_UNAVAILABLE, None, session.origin));
    }
  }

  lemma ArriveOwesNothing(app: App, authorization: Option<string>, route: Route)
    ensures var r := Admit(app, authorization, route); r.Refuse? ==> !Owes(Proceed(r.drafts, r.response, None, NoCall))
  {
    hide Admit, DraftsProper;
    AdmitDrafts(app, authorization, route);
  }

  lemma NextConserves(app: App, provider: Provider, w: World, a: Action)
    requires SessionsProper(app, w) && Conserved(w)
    ensures Conserved(Next(app, provider, w, a))
  {
    hide SessionsProper, RequestOf, Owing, Execute, Admit, Continue, StoredRows, RowsWith;
    match a
    case Store(c, keyVersion, draw) => StoreConserves(app, provider, w, c, keyVersion, draw);
    case Append(c, keyVersion, draw) => AppendConserves(app, provider, w, c, keyVersion, draw);
    case Crash => NothingOwed();
    case Arrive(c, authorization, route) =>
      ArriveOwesNothing(app, authorization, route);
      Replacing(w, a, Next(app, provider, w, a));
    case StoreFails(c, inAudit) =>
      if SessionOf(w, c).Calling? {
        var s := SessionOf(w, c);
        CallingProper(app, w, c);
        ContinueOwes(app, s.route, s.client, s.request, Failure(if inAudit then AuditUnavailable else StorageFailure),
                     CallBy(s.client, |w.events|));
        Replacing(w, a, Next(app, provider, w, a));
      }
    case AppendFails(c) => Replacing(w, a, Next(app, provider, w, a));
    case Respond(c) => Replacing(w, a, Next(app, provider, w, a));
  }

  /** A step that leaves the database alone and pays the client's debt into `lost`. */
  lemma Replacing(w: World, a: Action, next: World)
    requires Conserved(w) && next.db == w.db && !a.Crash?
    requires next == w
             || (a.client in next.sessions && next.sessions == w.sessions[a.client := next.sessions[a.client]]
                 && !Owes(next.sessions[a.client]) && next.lost == w.lost + Debt(SessionOf(w, a.client)))
    ensures Conserved(next)
  {
    hide Owing, StoredRows;
    if next != w {
      OwingUpdate(w.sessions, a.client, next.sessions[a.client]);
    }
  }

  lemma NothingOwed()
    ensures Owing(map[]) == {}
  {
  }

  // ----- Every reachable state --------------------------------------------------------------

  ghost predicate EventsFollow(app: App, provider: Provider, w: World)
  {
    && w.db == TablesAt(provider, w.events, |w.events|)
    && AllIssued(app, w.events, w.callers) && AppendsOtherCodes(w.events)
  }

  lemma IssuedOneMore(app: App, events: seq<Event>, callers: seq<Option<Credential>>, e: Event,
                      caller: Option<Credential>)
    requires AllIssued(app, events, callers) && AppendsOtherCodes(events) && Issued(app, e, caller)
    requires e.Called? && e.request.AppendAudit? ==> e.request.record.code !in MIRRORED
    ensures AllIssued(app, events + [e], callers + [caller]) && AppendsOtherCodes(events + [e])
  {
    hide Issued;
  }

  lemma CallIssued(app: App, w: World, c: nat, keyVersion: string, draw: Draw)
    requires SessionsProper(app, w) && SessionOf(w, c).Calling?
    ensures Issued(app, Called(keyVersion, draw, SessionOf(w, c).request), Some(SessionOf(w, c).client))
  {
    hide AdmitClient, Vetted;
    var s := SessionOf(w, c);
    assert SessionProper(app, w.db, w.sessions[c]);
    AdmittedClientVetted(app, s.route, s.client);
  }

  lemma NextFollows(app: App, provider: Provider, w: World, a: Action)
    requires SessionsProper(app, w) && EventsFollow(app, provider, w)
    ensures EventsFollow(app, provider, Next(app, provider, w, a))
  {
    hide SessionsProper, Execute, TablesAt, AllIssued, AppendsOtherCodes, Admit, Continue, Issued, DraftsProper, Owing;
    match a
    case Store(c, keyVersion, draw) =>
      var s := SessionOf(w, c);
      if s.Calling? {
        var e := Called(keyVersion, draw, s.request);
        CallIssued(app, w, c, keyVersion, draw);
        CallingProper(app, w, c);
        IssuedOneMore(app, w.events, w.callers, e, Some(s.client));
        TablesAfterOneMore(provider, w.events, e);
      }
    case Append(c, keyVersion, draw) =>
      var s := SessionOf(w, c);
      if s.Auditing? {
        AuditingProper(app, w, c);
        var e := Called(keyVersion, draw, AppendAudit(s.drafts[0].(occurredAt := draw.auditedAt)));
        TailOwesNothing(s.drafts, s.response, None, s.origin);
        UnvettedIssued(app, e, ClientOf(s.origin));
        IssuedOneMore(app, w.events, w.callers, e, ClientOf(s.origin));
        TablesAfterOneMore(provider, w.events, e);
      }
    case StoreFails(c, _) =>
      var s := SessionOf(w, c);
      if s.Calling? {
        UnvettedIssued(app, Faulted, Some(s.client));
        IssuedOneMore(app, w.events, w.callers, Faulted, Some(s.client));
        TablesAfterOneMore(provider, w.events, Faulted);
      }
    case AppendFails(c) =>
      var s := SessionOf(w, c);
      if s.Auditing? {
        UnvettedIssued(app, Faulted, ClientOf(s.origin));
        IssuedOneMore(app, w.events, w.callers, Faulted, ClientOf(s.origin));
        TablesAfterOneMore(provider, w.events, Faulted);
      }
    case _ =>
  }

  /** Audit appends and faults need no vetting. */
  lemma UnvettedIssued(app: App, e: Event, caller: Option<Credential>)
    requires e.Called? ==> e.request.AppendAudit?
    ensures Issued(app, e, caller)
  {
  }

  // ----- Whose values -----------------------------------------------------------------------

  /** A value in a response came out of the store call of its origin, recorded under its client. */
  ghost predicate OriginHolds(provider: Provider, events: seq<Event>, callers: seq<Option<Credential>>,
                              response: Response, origin: Origin)
  {
    response.ValueReply? ==>
      && origin.CallBy? && origin.call < |events| == |callers| && callers[origin.call] == Some(origin.client)
      && events[origin.call].Called? && events[origin.call].request.ResolveForUse?
      && OutcomeAt(provider, events, origin.call) == Success(Resolved(response.metadata, response.value))
  }

  ghost predicate SessionOrigin(provider: Provider, events: seq<Event>, callers: seq<Option<Credential>>, s: Session)
  {
    s.Auditing? || s.Finished? ==> OriginHolds(provider, events, callers, s.response, s.origin)
  }

  ghost predicate OriginsHold(provider: Provider, w: World)
  {
    && (forall c | c in w.sessions :: SessionOrigin(provider, w.events, w.callers, w.sessions[c]))
    && (forall i | 0 <= i < |w.answers| ::
          OriginHolds(provider, w.events, w.callers, w.answers[i].response, w.answers[i].origin))
  }

  lemma OriginLater(provider: Provider, events: seq<Event>, callers: seq<Option<Credential>>, more: seq<Event>,
                    others: seq<Option<Credential>>, response: Response, origin: Origin)
    requires OriginHolds(provider, events, callers, response, origin)
    requires events <= more && callers <= others && |more| == |others|
    ensures OriginHolds(provider, more, others, response, origin)
  {
    hide OutcomeAt;
    if response.ValueReply? {
      OutcomeAtPrefix(provider, events, more, origin.call);
    }
  }

  /** The step of one client, with the events it added. */
  lemma OriginsReplaced(provider: Provider, w: World, next: World, c: nat, session: Session)
    requires OriginsHold(provider, w)
    requires next.sessions == w.sessions[c := session] && next.answers == w.answers
    requires w.events <= next.events && w.callers <= next.callers && |next.events| == |next.callers|
    requires SessionOrigin(provider, next.events, next.callers, session)
    ensures OriginsHold(provider, next)
  {
    hide OriginHolds;
    forall d | d in next.sessions ensures SessionOrigin(provider, next.events, next.callers, next.sessions[d]) {
      var s := next.sessions[d];
      if d != c && (s.Auditing? || s.Finished?) {
        assert SessionOrigin(provider, w.events, w.callers, w.sessions[d]);
        OriginLater(provider, w.events, w.callers, next.events, next.callers, s.response, s.origin);
      }
    }
    forall i | 0 <= i < |next.answers|
      ensures OriginHolds(provider, next.events, next.callers, next.answers[i].response, next.answers[i].origin)
    {
      OriginLater(provider, w.events, w.callers, next.events, next.callers, w.answers[i].response, w.answers[i].origin);
    }
  }

  /** Only the resolve handler replies with a value, and with the one the store resolved. */
  lemma ContinueReleases(app: App, route: Route, client: Credential, outcome: Outcome)
    ensures var r := Continue(app, route, client, outcome).response;
            r.ValueReply? ==> route.ResolveRoute? && outcome == Success(Resolved(r.metadata, r.value))
  {
    hide Draft, CallerOf, CorrelationOf, DurableIntent, Signing.IntentFor, RevokedDrafts;
  }

  lemma ResolveRequests(app: App, route: Route, client: Credential, request: Request)
    requires RequestOf(app, route, client, request) && route.ResolveRoute?
    ensures request.ResolveForUse?
  {
    hide IntentAllowed, Granted, Recorded;
  }

  lemma StoreKeepsOrigins(app: App, provider: Provider, w: World, c: nat, keyVersion: string, draw: Draw)
    requires SessionsProper(app, w) && EventsFollow(app, provider, w) && OriginsHold(provider, w)
    ensures OriginsHold(provider, Next(app, provider, w, Store(c, keyVersion, draw)))
  {
    hide SessionsProper, OriginsHold, TablesAt, Execute, Continue, RequestOf, AppendsOtherCodes, Issued;
    var s := SessionOf(w, c);
    if s.Calling? {
      var e := Called(keyVersion, draw, s.request);
      var next := Next(app, provider, w, Store(c, keyVersion, draw));
      CallingProper(app, w, c);
      OutcomeAfterOneMore(provider, w.events, e);
      var outcome := Execute(EnvOf(provider, keyVersion), draw, s.request, w.db).1;
      ContinueReleases(app, s.route, s.client, outcome);
      if s.route.ResolveRoute? {
        ResolveRequests(app, s.route, s.client, s.request);
      }
      OriginsReplaced(provider, w, next, c, next.sessions[c]);
    }
  }

  lemma NextKeepsOrigins(app: App, provider: Provider, w: World, a: Action)
    requires SessionsProper(app, w) && EventsFollow(app, provider, w) && OriginsHold(provider, w)
    ensures OriginsHold(provider, Next(app, provider, w, a))
  {
    hide SessionsProper, OriginsHold, TablesAt, Execute, Continue, Admit, RequestOf, AppendsOtherCodes, Issued, Owing;
    if a.Crash? {
      NoSessionsKeepOrigins(provider, w, Next(app, provider, w, a));
    } else {
      var c, next, s := a.client, Next(app, provider, w, a), SessionOf(w, a.client);
      SessionOriginOf(provider, w, c);
      match a
      case Arrive(_, authorization, route) =>
        NoValueWithoutDrafts(app, authorization, route);
        if s.Idle? { OriginsReplaced(provider, w, next, c, next.sessions[c]); }
      case Store(_, keyVersion, draw) => StoreKeepsOrigins(app, provider, w, c, keyVersion, draw);
      case StoreFails(_, inAudit) =>
        if s.Calling? {
          ContinueReleases(app, s.route, s.client, Failure(if inAudit then AuditUnavailable else StorageFailure));
          OriginsReplaced(provider, w, next, c, next.sessions[c]);
        }
      case Append(_, _, _) =>
        if s.Auditing? && s.drafts != [] {
          OriginLater(provider, w.events, w.callers, next.events, next.callers, s.response, s.origin);
          OriginsReplaced(provider, w, next, c, next.sessions[c]);
        }
      case AppendFails(_) =>
        if s.Auditing? { OriginsReplaced(provider, w, next, c, next.sessions[c]); }
      case Respond(_) =>
        if s.Finished? { AnsweredKeepsOrigins(provider, w, next, c); }
    }
  }

  lemma SessionOriginOf(provider: Provider, w: World, c: nat)
    requires OriginsHold(provider, w)
    ensures SessionOrigin(provider, w.events, w.callers, SessionOf(w, c))
  {
  }

  lemma NoSessionsKeepOrigins(provider: Provider, w: World, next: World)
    requires OriginsHold(provider, w) && next.sessions == map[] && next.answers == w.answers
    requires next.events == w.events && next.callers == w.callers
    ensures OriginsHold(provider, next)
  {
  }

  lemma AnsweredKeepsOrigins(provider: Provider, w: World, next: World, c: nat)
    requires OriginsHold(provider, w) && c in w.sessions && w.sessions[c].Finished?
    requires next.sessions == w.sessions[c := Idle] && next.events == w.events && next.callers == w.callers
    requires var s := w.sessions[c]; next.answers == w.answers + [Answer(s.response, s.row, s.origin)]
    ensures OriginsHold(provider, next)
  {
    hide OriginHolds;
    assert SessionOrigin(provider, w.events, w.callers, w.sessions[c]);
  }

  ghost predicate Accounted(app: App, provider: Provider, w: World)
  {
    && SessionsProper(app, w) && RowsDistinct(w) && Conserved(w)
    && EventsFollow(app, provider, w) && OriginsHold(provider, w)
  }

  lemma StartAccounted(app: App, provider: Provider)
    ensures Accounted(app, provider, START)
  {
    assert Owing(map[]) == {} && forall code :: RowsWith(map[], code) == {};
  }

  lemma {:induction false} AlwaysAccounted(app: App, provider: Provider, actions: seq<Action>, n: nat)
    requires n <= |actions|
    ensures Accounted(app, provider, WorldAt(app, provider, actions, n))
  {
    hide Next, SessionsProper, RowsDistinct, Conserved, EventsFollow, OriginsHold;
    if n == 0 {
      StartAccounted(app, provider);
    } else {
      AlwaysAccounted(app, provider, actions, n - 1);
      var w, a := WorldAt(app, provider, actions, n - 1), actions[n - 1];
      NextKeepsSessions(app, provider, w, a);
      NextKeepsRows(app, provider, w, a);
      NextConserves(app, provider, w, a);
      NextFollows(app, provider, w, a);
      NextKeepsOrigins(app, provider, w, a);
    }
  }

  /** In every state handlers reach, however they interleave, fail and crash: generated-key rows equal
      generation records, version-revoked rows equal revocation records, and stored, rotated and
      generated rows never exceed version rows, short of them by exactly the versions whose handler
      still owes the row, failed to append it, or crashed. */
  lemma AuditConservation(app: App, provider: Provider, actions: seq<Action>, n: nat)
    requires n <= |actions|
    ensures var w := WorldAt(app, provider, actions, n);
            && RowCount(w.db, DelegationKeyGenerated) == |w.db.book.generations|
            && RowCount(w.db, SecretVersionRevoked) == |w.db.book.revocations|
            && StoredRows(w.db) + |Owing(w.sessions)| + w.lost == |w.db.versions|
  {
    hide SessionsProper, RowsDistinct, OriginsHold, WorldAt, TablesAt, AllIssued, AppendsOtherCodes;
    var w := WorldAt(app, provider, actions, n);
    AlwaysAccounted(app, provider, actions, n);
    AuditMirrorsRecords(provider, w.events, |w.events|);
  }

  /** Every response that carries a value has an audit row of its own that says so. */
  lemma ReleasesAreRecorded(app: App, provider: Provider, actions: seq<Action>, n: nat, i: nat, j: nat)
    requires n <= |actions| && i < |WorldAt(app, provider, actions, n).answers|
    requires j < |WorldAt(app, provider, actions, n).answers|
    requires var w := WorldAt(app, provider, actions, n);
             w.answers[i].response.ValueReply? && w.answers[j].response.ValueReply?
    ensures var w := WorldAt(app, provider, actions, n);
            && w.answers[i].row.Some? && w.answers[i].row.value in w.db.book.audit
            && Releases(w.db.book.audit[w.answers[i].row.value], w.answers[i].response)
            && (i != j ==> w.answers[i].row != w.answers[j].row)
  {
    hide WorldAt, Conserved, EventsFollow, OriginsHold, SessionProper, Releases;
    var w := WorldAt(app, provider, actions, n);
    AlwaysAccounted(app, provider, actions, n);
    assert RowReleases(w.db, w.answers[i].response, w.answers[i].row);
    assert RowReleases(w.db, w.answers[j].response, w.answers[j].row);
  }

  /** A store call that storage lets through never crashes its handler. */
  lemma StoreNeverCrashes(app: App, provider: Provider, actions: seq<Action>, n: nat)
    requires Lawful(provider.primitives) && n < |actions| && actions[n].Store?
    requires var s := SessionOf(WorldAt(app, provider, actions, n), actions[n].client);
             s.Calling? && WithinBounds(s.route)
    ensures var s := SessionOf(WorldAt(app, provider, actions, n + 1), actions[n].client);
            (s.Auditing? || s.Finished?) && s.response != Response.Crashed
  {
    hide SessionsProper, RowsDistinct, Conserved, OriginsHold, TablesAt, Execute, AdmitClient, Continue, AllIssued,
         AppendsOtherCodes;
    var w, a := WorldAt(app, provider, actions, n), actions[n];
    AlwaysAccounted(app, provider, actions, n);
    CallingProper(app, w, a.client);
    var s := SessionOf(w, a.client);
    var e := Called(a.keyVersion, a.draw, s.request);
    TablesAtPrefix(provider, w.events, w.events + [e], |w.events|);
    HandlersAreExhaustive(app, provider, w.events + [e], |w.events|, s.route, s.client);
  }

  /** Every response that carries a value goes to a client that is itself granted `secret.resolve` for the
      value's intent in its workspace, and the value was stored by an earlier call made for a client
      that was itself granted the write, rotation or generation for that intent there. */
  lemma ReleasesArePermitted(app: App, provider: Provider, actions: seq<Action>, n: nat, i: nat)
    requires Lawful(provider.primitives) && n <= |actions| && i < |WorldAt(app, provider, actions, n).answers|
    requires WorldAt(app, provider, actions, n).answers[i].response.ValueReply?
    ensures var w := WorldAt(app, provider, actions, n);
            var response, origin := w.answers[i].response, w.answers[i].origin;
            var version := Version(response.metadata, response.value);
            && |w.callers| == |w.events|
            && origin.CallBy? && origin.client in app.credentials && IntentOf(version).Some?
            && Granted(origin.client.grants, RESOLVE, version.metadata.workspaceId, IntentOf(version))
            && exists j: nat :: j < origin.call < |w.events|
                 && StoredWithPermission(app, provider, w.events, w.callers, j, version)
  {
    hide WorldAt, Conserved, SessionsProper, RowsDistinct, TablesAt, OutcomeAt, Granted, StoredWithPermission, Issued,
         AppendsOtherCodes, IntentOf;
    var w := WorldAt(app, provider, actions, n);
    AlwaysAccounted(app, provider, actions, n);
    assert OriginHolds(provider, w.events, w.callers, w.answers[i].response, w.answers[i].origin);
    ReleasedWithPermission(app, provider, w.events, w.callers, w.answers[i].origin.call);
  }

  /** Without a crash, a failing append or an event id drawn twice nothing is lost track of: then the
      audit rows equal the version rows as soon as no handler still owes one. */
  lemma {:induction false} NothingLostWithoutFailures(app: App, provider: Provider, actions: seq<Action>, n: nat)
    requires n <= |actions|
    requires forall k: nat | k < n :: !actions[k].Crash? && !actions[k].AppendFails?
    requires forall k: nat | k < n && actions[k].Append? ::
               actions[k].draw.eventId !in WorldAt(app, provider, actions, k).db.book.audit
    ensures var w := WorldAt(app, provider, actions, n);
            w.lost == 0 && (Owing(w.sessions) == {} ==> StoredRows(w.db) == |w.db.versions|)
  {
    hide Execute, Admit, Continue, Owing, StoredRows;
    if n > 0 {
      NothingLostWithoutFailures(app, provider, actions, n - 1);
      var w, a := WorldAt(app, provider, actions, n - 1), actions[n - 1];
      if a.Append? && SessionOf(w, a.client).Auditing? && SessionOf(w, a.client).drafts != [] {
        AppendRecords(EnvOf(provider, a.keyVersion), a.draw,
                      SessionOf(w, a.client).drafts[0].(occurredAt := a.draw.auditedAt), w.db);
      }
    }
    AuditConservation(app, provider, actions, n);
  }

  /** The database handlers work on is that of a run of vetted calls, so every statement about such
      runs holds of it. */
  lemma HandlersMakeARun(app: App, provider: Provider, actions: seq<Action>, n: nat)
    requires n <= |actions|
    ensures var w := WorldAt(app, provider, actions, n);
            w.db == TablesAt(provider, w.events, |w.events|) && AllIssued(app, w.events, w.callers)
  {
    hide WorldAt, SessionsProper, RowsDistinct, Conserved, OriginsHold, TablesAt;
    AlwaysAccounted(app, provider, actions, n);
  }
}
