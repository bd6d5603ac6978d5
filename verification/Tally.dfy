/** Counting rows: what every call adds to each table, on any database, and the records the audit
    mirrors one for one. */
module Tally {
  import opened Wrappers
  import opened JsonObjects
  import opened Models
  import opened Crypto
  import opened Signing
  import opened Tables
  import opened StoreSpec
  import opened Runs

  function RowsWith(audit: map<string, AuditRecord>, code: AuditCode): set<string>
  {
    set id | id in audit && audit[id].code == code
  }

  datatype Counts = Counts(versions: int, generations: int, revocations: int, rows: int)

  function Plus(a: Counts, b: Counts): Counts
  {
    Counts(a.versions + b.versions, a.generations + b.generations, a.revocations + b.revocations, a.rows + b.rows)
  }

  /** The rows of a database, and those of its audit with one code. */
  function CountsOf(db: Db, code: AuditCode): Counts
  {
    Counts(|db.versions|, |db.book.generations|, |db.book.revocations|, |RowsWith(db.book.audit, code)|)
  }

  function Adds(s: Statement, code: AuditCode): Counts
  {
    match s
    case InsertVersion(_, _) => Counts(1, 0, 0, 0)
    case InsertGeneration(_, _) => Counts(0, 1, 0, 0)
    case InsertRevocation(_, _) => Counts(0, 0, 1, 0)
    case InsertAudit(_, record) => Counts(0, 0, 0, if record.code == code then 1 else 0)
    case _ => Counts(0, 0, 0, 0)
  }

  function AddsAll(statements: seq<Statement>, code: AuditCode): Counts
  {
    if statements == [] then Counts(0, 0, 0, 0) else Plus(Adds(statements[0], code), AddsAll(statements[1..], code))
  }

  lemma NewKeyCounts<K, V>(m: map<K, V>, k: K, v: V)
    requires k !in m
    ensures |m[k := v]| == |m| + 1
  {
    assert m[k := v].Keys == m.Keys + {k};
    assert |m[k := v].Keys| == |m.Keys| + 1;
  }

  lemma NewRowCounts(audit: map<string, AuditRecord>, id: string, record: AuditRecord, code: AuditCode)
    requires id !in audit
    ensures |RowsWith(audit[id := record], code)| == |RowsWith(audit, code)| + if record.code == code then 1 else 0
  {
    var before, after := RowsWith(audit, code), RowsWith(audit[id := record], code);
    assert after == if record.code == code then before + {id} else before;
  }

  lemma SameKeysCount<K, V>(m: map<K, V>, k: K, v: V)
    requires k in m
    ensures |m[k := v]| == |m|
  {
    assert m[k := v].Keys == m.Keys;
    assert |m[k := v].Keys| == |m.Keys|;
  }

  lemma ApplyCounts(db: Db, s: Statement, code: AuditCode)
    requires Apply(db, s).Success?
    ensures CountsOf(Apply(db, s).value, code) == Plus(CountsOf(db, code), Adds(s, code))
  {
    hide NumberTaken, SecretGenerated, VersionRevocationRecorded, RowsWith;
    match s
    case InsertVersion(k, row) => NewKeyCounts(db.versions, k, row);
    case UpdateVersion(k, _, _, _, _) =>
      if k in db.versions {
        SameKeysCount(db.versions, k, Apply(db, s).value.versions[k]);
      }
    case InsertPin(_, _) =>
    case InsertGeneration(at, g) => NewKeyCounts(db.book.generations, at, g);
    case InsertRevocation(at, r) => NewKeyCounts(db.book.revocations, at, r);
    case InsertAudit(id, record) => NewRowCounts(db.book.audit, id, record, code);
  }

  lemma {:induction false} ApplyAllCounts(db: Db, statements: seq<Statement>, code: AuditCode)
    requires ApplyAll(db, statements).Success?
    ensures CountsOf(ApplyAll(db, statements).value, code) == Plus(CountsOf(db, code), AddsAll(statements, code))
    decreases |statements|
  {
    hide Apply, CountsOf, Adds;
    if statements != [] {
      ApplyCounts(db, statements[0], code);
      ApplyAllCounts(Apply(db, statements[0]).value, statements[1..], code);
    }
  }

  lemma AddsCons(s: Statement, rest: seq<Statement>, code: AuditCode)
    ensures AddsAll([s] + rest, code) == Plus(Adds(s, code), AddsAll(rest, code))
  {
    hide Adds;
    assert ([s] + rest)[1..] == rest;
  }

  lemma AddsOne(s: Statement, code: AuditCode)
    ensures AddsAll([s], code) == Adds(s, code)
  {
    hide Adds;
    assert [s][1..] == [];
  }

  lemma AddsVersion(s: Statement, code: AuditCode)
    requires s.InsertVersion? || s.UpdateVersion?
    ensures Adds(s, code) == Counts(if s.InsertVersion? then 1 else 0, 0, 0, 0)
  {
  }

  lemma AddsRecord(s: Statement, code: AuditCode)
    requires s.InsertGeneration? || s.InsertRevocation?
    ensures Adds(s, code) == Counts(0, if s.InsertGeneration? then 1 else 0, if s.InsertRevocation? then 1 else 0, 0)
  {
  }

  lemma AddsAudit(s: Statement, code: AuditCode)
    requires s.InsertAudit?
    ensures Adds(s, code) == Counts(0, 0, 0, if s.record.code == code then 1 else 0)
  {
  }

  /** Three statements: a version row, a record of it, and its audit row. */
  lemma AddsThree(a: Statement, b: Statement, c: Statement, code: AuditCode)
    requires a.InsertVersion? || a.UpdateVersion?
    requires b.InsertGeneration? || b.InsertRevocation?
    requires c.InsertAudit?
    ensures AddsAll([a, b, c], code)
            == Counts(if a.InsertVersion? then 1 else 0, if b.InsertGeneration? then 1 else 0,
                      if b.InsertRevocation? then 1 else 0, if c.record.code == code then 1 else 0)
  {
    hide AddsAll, Adds;
    AddsVersion(a, code);
    AddsRecord(b, code);
    AddsAudit(c, code);
    AddsOne(c, code);
    AddsCons(b, [c], code);
    AddsCons(a, [b] + [c], code);
    assert [a] + ([b] + [c]) == [a, b, c];
  }

  lemma {:induction false} LoopAddsNothing(env: Env, draw: Draw, versions: map<VersionKey, VersionRow>,
                                           ks: seq<VersionKey>, i: nat, code: AuditCode)
    requires i <= |ks| && forall k :: k in ks ==> k in versions
    ensures AddsAll(RevokeRows(env, draw, versions, ks, i).statements, code) == Counts(0, 0, 0, 0)
    decreases |ks| - i
  {
    hide MetadataFromRow, DecryptRow;
    if i < |ks| {
      LoopAddsNothing(env, draw, versions, ks, i + 1, code);
      var loop, tail := RevokeRows(env, draw, versions, ks, i), RevokeRows(env, draw, versions, ks, i + 1);
      if loop.statements != [] && loop.statements != tail.statements {
        assert loop.statements[1..] == tail.statements;
      }
    }
  }

  // ----- What a call adds -------------------------------------------------------------------

  /** The audit row a successful call writes in its own transaction. */
  function AuditedAs(request: Request, reply: Reply, book: Book): Option<AuditCode>
  {
    match request
    case Generate(_, _, _, _, _, _, _, _, _) =>
      if !reply.Generated? then None
      else if reply.key.replayed then Some(DelegationKeyGenerationReplayed)
      else Some(DelegationKeyGenerated)
    case RevokeVersion(w, _, _, _, _, correlation, _) =>
      Some(if CorrelationKey(w, correlation) in book.revocations then SecretVersionRevocationReplayed
           else SecretVersionRevoked)
    case AppendAudit(record) => Some(record.code)
    case _ => None
  }

  predicate FirstGeneration(request: Request, reply: Reply)
  {
    request.Generate? && reply.Generated? && !reply.key.replayed
  }

  function Added(request: Request, reply: Reply, book: Book, code: AuditCode): Counts
  {
    Counts(if request.Create? || request.Rotate? || FirstGeneration(request, reply) then 1 else 0,
           if FirstGeneration(request, reply) then 1 else 0,
           if request.RevokeVersion? && CorrelationKey(request.workspaceId, request.correlationId) !in book.revocations
           then 1 else 0,
           if AuditedAs(request, reply, book) == Some(code) then 1 else 0)
  }

  lemma AuditOnly(s: seq<Statement>, code: AuditCode)
    requires |s| == 1 && s[0].InsertAudit?
    ensures AddsAll(s, code) == Counts(0, 0, 0, if s[0].record.code == code then 1 else 0)
  {
    hide AddsAll;
    assert s == [s[0]];
    AddsOne(s[0], code);
  }

  lemma RereadIsReplayed(env: Env, versions: map<VersionKey, VersionRow>, at: CorrelationKey, g: Generation,
                         intent: string)
    ensures var r := ReadGeneration(env, versions, at, g, intent); r.Success? ==> r.value.replayed
  {
    hide MetadataFromRow, DecryptRow, MaterialMatches, FamilyLabels;
  }

  lemma GenerateAdds(env: Env, draw: Draw, request: Request, db: Db, code: AuditCode)
    requires request.Generate? && PlanOf(env, draw, request, db).outcome.Success?
    ensures var plan := PlanOf(env, draw, request, db);
            AddsAll(plan.statements, code) == Added(request, plan.outcome.value, db.book, code)
  {
    hide IntentFor, FamilyLabels, LabelsClean, SealedRow, AddsAll, Adds, ReadGeneration, FreshMetadata, DelegationKeyId;
    var plan := PlanOf(env, draw, request, db);
    var at := CorrelationKey(request.workspaceId, request.correlationId);
    if at in db.book.generations {
      RereadIsReplayed(env, db.versions, at, db.book.generations[at], request.intent);
      AuditOnly(plan.statements, code);
    } else {
      var s := plan.statements;
      assert |s| == 3;
      var a, b, c := s[0], s[1], s[2];
      assert s == [a, b, c];
      AddsThree(a, b, c, code);
    }
  }

  lemma RetireAdds(env: Env, draw: Draw, m: Metadata, value: Bytes, at: CorrelationKey, callerSubject: string,
                   providerId: string, code: AuditCode)
    ensures AddsAll(RetirePlan(env, draw, m, value, at, callerSubject, providerId).statements, code)
            == Counts(0, 0, 1, if code == SecretVersionRevoked then 1 else 0)
  {
    hide AddsAll, Adds, Label, Encrypt, Aad;
    var s := RetirePlan(env, draw, m, value, at, callerSubject, providerId).statements;
    var a, b, c := s[0], s[1], s[2];
    assert s == [a, b, c];
    AddsThree(a, b, c, code);
  }

  lemma RevokeAdds(env: Env, draw: Draw, request: Request, db: Db, code: AuditCode)
    requires request.RevokeVersion? && PlanOf(env, draw, request, db).outcome.Success?
    ensures var plan := PlanOf(env, draw, request, db);
            AddsAll(plan.statements, code) == Added(request, plan.outcome.value, db.book, code)
  {
    hide MetadataFromRow, DecryptRow, AddsAll, VersionRevocationRecorded, Label, RetirePlan;
    var plan := PlanOf(env, draw, request, db);
    var at := CorrelationKey(request.workspaceId, request.correlationId);
    if at in db.book.revocations {
      assert |plan.statements| == 1;
      AddsOne(plan.statements[0], code);
      assert plan.statements == [plan.statements[0]];
    } else {
      var k := VersionKey(request.workspaceId, request.secretId, request.versionId);
      RetireAdds(env, draw, MetadataFromRow(k, db.versions[k]).value, DecryptRow(env, k, db.versions[k]).value, at,
                 request.callerSubject, request.providerId, code);
    }
  }

  lemma WriteAdds(env: Env, draw: Draw, w: string, s: string, value: Bytes, labels: Labels, number: int,
                  code: AuditCode)
    requires InsertPlan(env, draw, w, s, value, labels, number).outcome.Success?
    ensures AddsAll(InsertPlan(env, draw, w, s, value, labels, number).statements, code) == Counts(1, 0, 0, 0)
  {
    hide LabelsClean, SealedRow, AddsAll;
    AddsOne(InsertPlan(env, draw, w, s, value, labels, number).statements[0], code);
  }

  lemma RotateAdds(env: Env, draw: Draw, request: Request, db: Db, code: AuditCode)
    requires request.Rotate? && PlanOf(env, draw, request, db).outcome.Success?
    ensures AddsAll(PlanOf(env, draw, request, db).statements, code) == Counts(1, 0, 0, 0)
  {
    hide MetadataFromRow, InsertPlan, Label, AddsAll;
    var latest := LatestRow(db.versions, SecretKey(request.workspaceId, request.secretId)).value;
    assert latest in db.versions;
    WriteAdds(env, draw, request.workspaceId, request.secretId, request.value, request.labels,
              MetadataFromRow(latest, db.versions[latest]).value.versionNumber + 1, code);
  }

  lemma AddsNone(code: AuditCode)
    ensures AddsAll([], code) == Counts(0, 0, 0, 0)
  {
  }

  lemma ResolveAdds(env: Env, draw: Draw, request: Request, db: Db, code: AuditCode)
    requires request.ResolveForUse? && PlanOf(env, draw, request, db).outcome.Success?
    ensures AddsAll(PlanOf(env, draw, request, db).statements, code) == Counts(0, 0, 0, 0)
  {
    hide MetadataFromRow, ReadForUse, Label, AddsAll, SelectRow;
    var plan := PlanOf(env, draw, request, db);
    AddsNone(code);
    if plan.statements != [] {
      assert plan.statements == [plan.statements[0]];
      AddsOne(plan.statements[0], code);
    }
  }

  lemma PlanAdds(env: Env, draw: Draw, request: Request, db: Db, code: AuditCode)
    requires PlanOf(env, draw, request, db).outcome.Success?
    ensures var plan := PlanOf(env, draw, request, db);
            AddsAll(plan.statements, code) == Added(request, plan.outcome.value, db.book, code)
  {
    hide MetadataFromRow, DecryptRow, RevokeRows, InsertPlan, GeneratePlan, RevokeVersionPlan, RotatePlan, ReadForUse,
         Label, AddsAll;
    match request
    case Create(w, s, value, labels) => WriteAdds(env, draw, w, s, value, labels, 1, code);
    case Rotate(_, _, _, _, _) => RotateAdds(env, draw, request, db, code);
    case RevokeSecret(w, s) =>
      LoopAddsNothing(env, draw, db.versions, Ascending(db.versions, RowsOf(db.versions, SecretKey(w, s))), 0, code);
    case RevokeVersion(_, _, _, _, _, _, _) => RevokeAdds(env, draw, request, db, code);
    case Generate(_, _, _, _, _, _, _, _, _) => GenerateAdds(env, draw, request, db, code);
    case ResolveForUse(_, _, _, _, _, _) => ResolveAdds(env, draw, request, db, code);
    case ReadMetadata(_, _, _) => AddsNone(code);
    case Resolve(_, _, _) => AddsNone(code);
    case AppendAudit(record) => AddsOne(InsertAudit(draw.eventId, record), code);
  }

  /** What every call adds to each table, on any database: nothing when it fails, and otherwise exactly
      its version, generation and revocation rows and its audit row. */
  lemma CallAdds(env: Env, draw: Draw, request: Request, db: Db, code: AuditCode)
    ensures var (after, outcome) := Execute(env, draw, request, db);
            CountsOf(after, code)
            == if outcome.Failure? then CountsOf(db, code)
               else Plus(CountsOf(db, code), Added(request, outcome.value, db.book, code))
  {
    hide PlanOf, Apply, CountsOf, Added, AddsAll;
    var plan := PlanOf(env, draw, request, db);
    if ApplyAll(db, plan.statements).Success? && plan.outcome.Success? {
      PlanAdds(env, draw, request, db, code);
      ApplyAllCounts(db, plan.statements, code);
    }
  }

  // ----- Conservation over runs -------------------------------------------------------------

  const MIRRORED := {DelegationKeyGenerated, SecretVersionRevoked}

  /** No separately appended record carries a code that belongs to a store transaction. */
  ghost predicate AppendsOtherCodes(events: seq<Event>)
  {
    forall i | 0 <= i < |events| && events[i].Called? && events[i].request.AppendAudit? ::
      events[i].request.record.code !in MIRRORED
  }

  ghost predicate Mirrored(db: Db)
  {
    && |RowsWith(db.book.audit, DelegationKeyGenerated)| == |db.book.generations|
    && |RowsWith(db.book.audit, SecretVersionRevoked)| == |db.book.revocations|
  }

  lemma StepKeepsMirrored(provider: Provider, e: Event, db: Db)
    requires Mirrored(db)
    requires e.Called? && e.request.AppendAudit? ==> e.request.record.code !in MIRRORED
    ensures Mirrored(Step(provider, e, db).0)
  {
    hide RowsWith, Execute;
    if e.Called? {
      CallAdds(EnvOf(provider, e.keyVersion), e.draw, e.request, db, DelegationKeyGenerated);
      CallAdds(EnvOf(provider, e.keyVersion), e.draw, e.request, db, SecretVersionRevoked);
    }
  }

  lemma StartsMirrored()
    ensures Mirrored(EMPTY_DB)
  {
    assert RowsWith(map[], DelegationKeyGenerated) == {} && RowsWith(map[], SecretVersionRevoked) == {};
  }

  /** In every reachable state there are as many generated-key audit rows as generation records, and
      as many version-revoked rows as revocation records. */
  lemma {:induction false} AuditMirrorsRecords(provider: Provider, events: seq<Event>, n: nat)
    requires n <= |events| && AppendsOtherCodes(events)
    ensures Mirrored(TablesAt(provider, events, n))
  {
    hide Mirrored, Step;
    if n == 0 {
      StartsMirrored();
    } else {
      AuditMirrorsRecords(provider, events, n - 1);
      StepKeepsMirrored(provider, events[n - 1], TablesAt(provider, events, n - 1));
    }
  }
}
