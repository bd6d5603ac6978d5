/** Calls under an already used correlation id change no table but the audit, on any database, and
    deleting them from a run changes nothing else. */
module Stutter {
  import opened Wrappers
  import opened JsonObjects
  import opened Models
  import opened Crypto
  import opened Signing
  import opened Tables
  import opened StoreSpec
  import opened Vault
  import opened Runs
  import opened Replay

  /** A correlated call whose correlation id already has a record: an exact retry or a conflicting reuse. */
  predicate IsReuse(request: Request, book: Book)
  {
    match request
    case ResolveForUse(w, _, _, _, correlation, _) => CorrelationKey(w, correlation) in book.pins
    case Generate(w, _, _, _, _, _, _, correlation, _) => CorrelationKey(w, correlation) in book.generations
    case RevokeVersion(w, _, _, _, _, correlation, _) => CorrelationKey(w, correlation) in book.revocations
    case _ => false
  }

  /** Equal version, pin, generation and revocation tables. */
  ghost predicate SameTables(a: Db, b: Db)
  {
    && a.versions == b.versions && a.book.pins == b.book.pins
    && a.book.generations == b.book.generations && a.book.revocations == b.book.revocations
  }

  /** The audit gained at most the row `id`. */
  ghost predicate AuditExtends(before: Db, after: Db, id: string)
  {
    before.book.audit.Keys <= after.book.audit.Keys <= before.book.audit.Keys + {id}
  }

  /** A plan that appends at most one audit row and nothing else. */
  ghost predicate AuditAtMost(plan: Plan, id: string)
  {
    || plan.statements == []
    || (|plan.statements| == 1 && plan.statements[0].InsertAudit? && plan.statements[0].eventId == id)
  }

  lemma ReuseOfPin(env: Env, draw: Draw, request: Request, db: Db)
    requires request.ResolveForUse? && IsReuse(request, db.book)
    ensures AuditAtMost(PlanOf(env, draw, request, db), draw.eventId)
  {
    hide ReadForUse;
  }

  lemma ReuseOfGeneration(env: Env, draw: Draw, request: Request, db: Db)
    requires request.Generate? && IsReuse(request, db.book)
    ensures AuditAtMost(PlanOf(env, draw, request, db), draw.eventId)
  {
    hide ReadGeneration, IntentFor;
  }

  lemma ReuseOfRevocation(env: Env, draw: Draw, request: Request, db: Db)
    requires request.RevokeVersion? && IsReuse(request, db.book)
    ensures AuditAtMost(PlanOf(env, draw, request, db), draw.eventId)
  {
    hide MetadataFromRow, DecryptRow;
  }

  lemma AuditAtMostStutters(db: Db, plan: Plan, id: string)
    requires AuditAtMost(plan, id)
    ensures var after := Commit(db, plan).0; SameTables(db, after) && AuditExtends(db, after, id)
  {
    if plan.statements != [] {
      assert plan.statements == [plan.statements[0]];
      ApplyOne(db, plan.statements[0]);
    }
  }

  /** Whatever the database holds, a reuse of a correlation id leaves the four tables as they were. */
  lemma ReuseStutters(env: Env, draw: Draw, request: Request, db: Db)
    requires IsReuse(request, db.book)
    ensures var after := Execute(env, draw, request, db).0;
            SameTables(db, after) && AuditExtends(db, after, draw.eventId)
  {
    hide PlanOf, AuditAtMost, Commit, SameTables;
    if request.ResolveForUse? {
      ReuseOfPin(env, draw, request, db);
    } else if request.Generate? {
      ReuseOfGeneration(env, draw, request, db);
    } else {
      ReuseOfRevocation(env, draw, request, db);
    }
    AuditAtMostStutters(db, PlanOf(env, draw, request, db), draw.eventId);
  }

  ghost predicate NoAudit(statements: seq<Statement>)
  {
    forall s :: s in statements ==> !s.InsertAudit?
  }

  /** Only the last statement may append an audit row, under the given event id. */
  ghost predicate AuditsLast(statements: seq<Statement>, id: string)
  {
    statements == []
    || (var last := statements[|statements| - 1];
        NoAudit(statements[..|statements| - 1]) && (last.InsertAudit? ==> last.eventId == id))
  }

  lemma {:induction false} LoopHasNoAudit(env: Env, draw: Draw, versions: map<VersionKey, VersionRow>,
                                          ks: seq<VersionKey>, i: nat)
    requires i <= |ks| && forall k :: k in ks ==> k in versions
    ensures NoAudit(RevokeRows(env, draw, versions, ks, i).statements)
    decreases |ks| - i
  {
    if i < |ks| {
      LoopHasNoAudit(env, draw, versions, ks, i + 1);
    }
  }

  /** No plan reads the audit table. */
  lemma PlanIgnoresAudit(env: Env, draw: Draw, request: Request, a: Db, b: Db)
    requires SameTables(a, b)
    ensures PlanOf(env, draw, request, a) == PlanOf(env, draw, request, b)
  {
  }

  lemma PlanAuditsLast(env: Env, draw: Draw, request: Request, db: Db)
    ensures AuditsLast(PlanOf(env, draw, request, db).statements, draw.eventId)
  {
    hide MetadataFromRow, DecryptRow, ReadForUse, ReadGeneration, LatestRow, SelectRow, IntentFor, LabelsClean,
         FamilyLabels, Encrypt, Aad, SealedRow;
    if request.RevokeSecret? {
      var ks := Ascending(db.versions, RowsOf(db.versions, SecretKey(request.workspaceId, request.secretId)));
      LoopHasNoAudit(env, draw, db.versions, ks, 0);
    }
  }

  /** Both audits gained the same row `id`, or neither gained any. */
  ghost predicate AuditsGrowAlike(a: Db, x: Db, b: Db, y: Db, id: string)
  {
    || (x.book.audit.Keys == a.book.audit.Keys && y.book.audit.Keys == b.book.audit.Keys)
    || (x.book.audit.Keys == a.book.audit.Keys + {id} && y.book.audit.Keys == b.book.audit.Keys + {id})
  }

  lemma StatementAgrees(a: Db, b: Db, s: Statement, id: string)
    requires SameTables(a, b)
    requires s.InsertAudit? ==> s.eventId == id && (id in a.book.audit <==> id in b.book.audit)
    ensures var x, y := Apply(a, s), Apply(b, s);
            if x.Success? then
              && y.Success? && SameTables(x.value, y.value) && AuditsGrowAlike(a, x.value, b, y.value, id)
              && (!s.InsertAudit? ==> x.value.book.audit == a.book.audit && y.value.book.audit == b.book.audit)
            else x == y
  {
    hide NumberTaken, SecretGenerated, VersionRevocationRecorded;
  }

  lemma {:induction false} NoAuditStatementsAgree(a: Db, b: Db, statements: seq<Statement>)
    requires SameTables(a, b) && NoAudit(statements)
    ensures var x, y := ApplyAll(a, statements), ApplyAll(b, statements);
            if x.Success? then
              && y.Success? && SameTables(x.value, y.value)
              && x.value.book.audit == a.book.audit && y.value.book.audit == b.book.audit
            else x == y
    decreases |statements|
  {
    if statements != [] {
      StatementAgrees(a, b, statements[0], "");
      var x, y := Apply(a, statements[0]), Apply(b, statements[0]);
      if x.Success? {
        NoAuditStatementsAgree(x.value, y.value, statements[1..]);
      }
    }
  }

  /** With an event id that both audits have or neither has, the same statements succeed or fail alike. */
  lemma StatementsAgree(a: Db, b: Db, statements: seq<Statement>, id: string)
    requires SameTables(a, b) && AuditsLast(statements, id)
    requires id in a.book.audit <==> id in b.book.audit
    ensures var x, y := ApplyAll(a, statements), ApplyAll(b, statements);
            if x.Success? then y.Success? && SameTables(x.value, y.value) && AuditsGrowAlike(a, x.value, b, y.value, id)
            else x == y
  {
    if statements != [] {
      hide SameTables, Apply;
      var init, last := statements[..|statements| - 1], statements[|statements| - 1];
      assert statements == init + [last];
      ApplyAllAppend(a, init, [last]);
      ApplyAllAppend(b, init, [last]);
      NoAuditStatementsAgree(a, b, init);
      var x, y := ApplyAll(a, init), ApplyAll(b, init);
      if x.Success? {
        ApplyOne(x.value, last);
        ApplyOne(y.value, last);
        StatementAgrees(x.value, y.value, last, id);
      }
    }
  }

  /** On databases that differ only in their audits a call whose event id both audits have, or neither
      has, has the same outcome and leaves databases that again differ only in their audits. */
  lemma CallsAgree(env: Env, draw: Draw, request: Request, a: Db, b: Db)
    requires SameTables(a, b) && (draw.eventId in a.book.audit <==> draw.eventId in b.book.audit)
    ensures var (x, r) := Execute(env, draw, request, a);
            var (y, q) := Execute(env, draw, request, b);
            r == q && SameTables(x, y) && AuditsGrowAlike(a, x, b, y, draw.eventId)
  {
    hide PlanOf, SameTables, ApplyAll, AuditsLast;
    PlanIgnoresAudit(env, draw, request, a, b);
    PlanAuditsLast(env, draw, request, a);
    StatementsAgree(a, b, PlanOf(env, draw, request, a).statements, draw.eventId);
  }

  // ----- Calls that append an audit row -----------------------------------------------------

  /** The guards before the audit insert of a call that reuses no correlation id: an append has none; a
      first generation needs its family, clean labels and a new secret; a first revocation needs the
      named version readable, active, decryptable and never recorded. No other call has an insert. */
  ghost predicate ReachesAudit(env: Env, draw: Draw, request: Request, db: Db)
  {
    match request
    case AppendAudit(_) => true
    case Generate(w, s, _, purpose, intent, issuer, _, _, _) =>
      var keyId := DelegationKeyId(env.primitives, env.primitives.publicPem(draw.seed));
      && IntentFor(purpose) == Some(intent) && LabelsClean(FamilyLabels(intent, purpose, issuer, keyId))
      && VersionKey(w, s, draw.versionId) !in db.versions && !NumberTaken(db.versions, SecretKey(w, s), 1)
      && !SecretGenerated(db.book.generations, w, s)
    case RevokeVersion(w, s, id, number, _, _, _) =>
      var k := VersionKey(w, s, id);
      && k in db.versions && !VersionRevocationRecorded(db.book.revocations, w, s, id)
      && var m := MetadataFromRow(k, db.versions[k]);
      && m.Some? && m.value.versionNumber == number && m.value.status == Active
      && DecryptRow(env, k, db.versions[k]).Success?
    case _ => false
  }

  /** A plan whose last statement is an audit insert that it reaches. */
  ghost predicate PlanReaches(db: Db, plan: Plan)
  {
    plan.statements != []
    && var last := |plan.statements| - 1;
       plan.statements[last].InsertAudit? && ApplyAll(db, plan.statements[..last]).Success?
  }

  lemma ApplyTwo(db: Db, s: Statement, t: Statement)
    ensures ApplyAll(db, [s, t])
            == match Apply(db, s) case Failure(e) => Failure(e) case Success(next) => Apply(next, t)
  {
    hide Apply;
    assert [s, t][1..] == [t];
    if Apply(db, s).Success? {
      ApplyOne(Apply(db, s).value, t);
    }
  }

  lemma GenerationReaches(env: Env, draw: Draw, request: Request, db: Db)
    requires request.Generate? && !IsReuse(request, db.book)
    ensures var plan := PlanOf(env, draw, request, db);
            && (ReachesAudit(env, draw, request, db) <==> PlanReaches(db, plan))
            && (plan.statements != [] ==> plan.outcome.Success?)
  {
    hide IntentFor, FamilyLabels, LabelsClean, DelegationKeyId, Aad, DumpLabels, NumberTaken, SecretGenerated, ApplyAll;
    var plan := PlanOf(env, draw, request, db);
    if plan.statements != [] {
      var s, t := plan.statements[0], plan.statements[1];
      assert plan.statements[..2] == [s, t];
      ApplyTwo(db, s, t);
    }
  }

  lemma RevocationReaches(env: Env, draw: Draw, request: Request, db: Db)
    requires request.RevokeVersion? && !IsReuse(request, db.book)
    ensures var plan := PlanOf(env, draw, request, db);
            && (ReachesAudit(env, draw, request, db) <==> PlanReaches(db, plan))
            && (plan.statements != [] ==> plan.outcome.Success?)
  {
    hide LoadLabels, DecryptRow, Label, VersionRevocationRecorded, ApplyAll, Encrypt, Aad;
    var plan := PlanOf(env, draw, request, db);
    if plan.statements != [] {
      var s, t := plan.statements[0], plan.statements[1];
      assert plan.statements[..2] == [s, t];
      ApplyTwo(db, s, t);
    }
  }

  lemma OthersAppendNothing(env: Env, draw: Draw, request: Request, db: Db)
    requires !request.Generate? && !request.RevokeVersion? && !request.AppendAudit?
    ensures NoAudit(PlanOf(env, draw, request, db).statements)
  {
    hide MetadataFromRow, DecryptRow, ReadForUse, LatestRow, SelectRow, LabelsClean, Label, SealedRow;
    if request.RevokeSecret? {
      var ks := Ascending(db.versions, RowsOf(db.versions, SecretKey(request.workspaceId, request.secretId)));
      LoopHasNoAudit(env, draw, db.versions, ks, 0);
    }
  }

  lemma ReachesIsPlan(env: Env, draw: Draw, request: Request, db: Db)
    requires !IsReuse(request, db.book)
    ensures var plan := PlanOf(env, draw, request, db);
            && (ReachesAudit(env, draw, request, db) <==> PlanReaches(db, plan))
            && (PlanReaches(db, plan) ==> plan.outcome.Success?)
  {
    hide GeneratePlan, RevokeVersionPlan, RotatePlan, RevokeSecretPlan, ResolveForUsePlan, ReadMetadataPlan,
         ResolvePlan,
         InsertPlan, IntentFor, FamilyLabels, LabelsClean, MetadataFromRow, DecryptRow;
    if request.Generate? {
      GenerationReaches(env, draw, request, db);
    } else if request.RevokeVersion? {
      RevocationReaches(env, draw, request, db);
    } else if !request.AppendAudit? {
      OthersAppendNothing(env, draw, request, db);
    }
  }

  lemma ReachingPlan(db: Db, plan: Plan, id: string)
    requires AuditsLast(plan.statements, id) && PlanReaches(db, plan) && plan.outcome.Success?
    ensures Commit(db, plan).1 == if id in db.book.audit then Failure(AuditUnavailable) else plan.outcome
  {
    hide SameTables;
    var init, last := plan.statements[..|plan.statements| - 1], plan.statements[|plan.statements| - 1];
    assert plan.statements == init + [last];
    ApplyAllAppend(db, init, [last]);
    NoAuditStatementsAgree(db, db, init);
    ApplyOne(ApplyAll(db, init).value, last);
  }

  /** A reaching call fails exactly on a taken event id. */
  lemma ReachingCall(env: Env, draw: Draw, request: Request, db: Db)
    requires !IsReuse(request, db.book) && ReachesAudit(env, draw, request, db)
    ensures var outcome := Execute(env, draw, request, db).1;
            if draw.eventId in db.book.audit then outcome == Failure(AuditUnavailable) else outcome.Success?
  {
    hide ReachesAudit, PlanReaches, PlanOf, Commit, AuditsLast;
    ReachesIsPlan(env, draw, request, db);
    PlanAuditsLast(env, draw, request, db);
    ReachingPlan(db, PlanOf(env, draw, request, db), draw.eventId);
  }

  /** Equal tables afterwards, and audits as they were. */
  ghost predicate AuditsUntouched(a: Db, x: Db, b: Db, y: Db)
  {
    SameTables(x, y) && x.book.audit == a.book.audit && y.book.audit == b.book.audit
  }

  lemma OtherPlan(a: Db, b: Db, plan: Plan, id: string)
    requires SameTables(a, b) && AuditsLast(plan.statements, id) && !PlanReaches(a, plan)
    ensures Commit(a, plan).1 == Commit(b, plan).1
    ensures AuditsUntouched(a, Commit(a, plan).0, b, Commit(b, plan).0)
  {
    hide SameTables;
    if plan.statements != [] {
      var init, last := plan.statements[..|plan.statements| - 1], plan.statements[|plan.statements| - 1];
      assert plan.statements == init + [last];
      if last.InsertAudit? {
        ApplyAllAppend(a, init, [last]);
        ApplyAllAppend(b, init, [last]);
        NoAuditStatementsAgree(a, b, init);
      } else {
        NoAuditStatementsAgree(a, b, plan.statements);
      }
    }
  }

  /** A call that does not reach an audit insert has nothing to do with the audit. */
  lemma OtherCall(env: Env, draw: Draw, request: Request, a: Db, b: Db)
    requires SameTables(a, b) && !IsReuse(request, a.book) && !ReachesAudit(env, draw, request, a)
    ensures var (x, r) := Execute(env, draw, request, a);
            var (y, q) := Execute(env, draw, request, b);
            r == q && AuditsUntouched(a, x, b, y)
  {
    hide ReachesAudit, PlanReaches, PlanOf, Commit, AuditsLast, SameTables, AuditsUntouched;
    ReachesIsPlan(env, draw, request, a);
    PlanAuditsLast(env, draw, request, a);
    PlanIgnoresAudit(env, draw, request, a, b);
    OtherPlan(a, b, PlanOf(env, draw, request, a), draw.eventId);
  }

  // ----- Deleting reuses from a run ---------------------------------------------------------

  ghost predicate ReusesAt(provider: Provider, events: seq<Event>, n: nat)
    requires n < |events|
  {
    events[n].Called? && IsReuse(events[n].request, TablesAt(provider, events, n).book)
  }

  /** The first `n` events without the calls that reuse a correlation id. */
  ghost function Trimmed(provider: Provider, events: seq<Event>, n: nat): seq<Event>
    requires n <= |events|
  {
    if n == 0 then []
    else Trimmed(provider, events, n - 1) + (if ReusesAt(provider, events, n - 1) then [] else [events[n - 1]])
  }

  /** The audit rows the deleted calls wrote. */
  ghost function WrittenIds(provider: Provider, events: seq<Event>, n: nat): set<string>
    requires n <= |events|
  {
    if n == 0 then {}
    else
      WrittenIds(provider, events, n - 1)
      + (if ReusesAt(provider, events, n - 1) then
           TablesAt(provider, events, n).book.audit.Keys - TablesAt(provider, events, n - 1).book.audit.Keys
         else {})
  }

  /** A call that stays, reaches its audit insert, and drew an event id a deleted replay wrote. */
  ghost predicate Shadowed(provider: Provider, events: seq<Event>, n: nat)
    requires n < |events|
  {
    && events[n].Called? && !ReusesAt(provider, events, n)
    && events[n].draw.eventId in WrittenIds(provider, events, n)
    && ReachesAudit(EnvOf(provider, events[n].keyVersion), events[n].draw, events[n].request,
                    TablesAt(provider, events, n))
  }

  /** The run and its trimmed form: the same four tables, and audits that differ by what replays wrote. */
  ghost predicate Agrees(provider: Provider, events: seq<Event>, n: nat, kept: seq<Event>)
    requires n <= |events|
  {
    var a, b := TablesAt(provider, events, n), TablesAt(provider, kept, |kept|);
    var written := WrittenIds(provider, events, n);
    SameTables(a, b) && a.book.audit.Keys == b.book.audit.Keys + written && b.book.audit.Keys !! written
  }

  /** One call on both sides, with the ids `written` only in the first audit. */
  lemma CallKeepsAgreement(env: Env, draw: Draw, request: Request, a: Db, b: Db, written: set<string>)
    requires SameTables(a, b) && a.book.audit.Keys == b.book.audit.Keys + written && b.book.audit.Keys !! written
    requires !IsReuse(request, a.book)
    requires !(draw.eventId in written && ReachesAudit(env, draw, request, a))
    ensures var (x, r) := Execute(env, draw, request, a);
            var (y, q) := Execute(env, draw, request, b);
            && r == q && SameTables(x, y)
            && x.book.audit.Keys == y.book.audit.Keys + written && y.book.audit.Keys !! written
  {
    hide Execute, ReachesAudit, SameTables, IsReuse;
    if ReachesAudit(env, draw, request, a) {
      CallsAgree(env, draw, request, a, b);
    } else {
      OtherCall(env, draw, request, a, b);
    }
  }

  lemma KeepingAgrees(provider: Provider, events: seq<Event>, n: nat, kept: seq<Event>)
    requires n < |events| && Agrees(provider, events, n, kept)
    requires !ReusesAt(provider, events, n) && !Shadowed(provider, events, n)
    ensures Agrees(provider, events, n + 1, kept + [events[n]])
    ensures OutcomeAt(provider, events, n) == Step(provider, events[n], TablesAt(provider, kept, |kept|)).1
  {
    hide SameTables, Execute, ReachesAudit, IsReuse;
    var e, a, b := events[n], TablesAt(provider, events, n), TablesAt(provider, kept, |kept|);
    TablesAfterOneMore(provider, kept, e);
    if e.Called? {
      CallKeepsAgreement(EnvOf(provider, e.keyVersion), e.draw, e.request, a, b, WrittenIds(provider, events, n));
    }
  }

  lemma DroppingAgrees(provider: Provider, events: seq<Event>, n: nat, kept: seq<Event>)
    requires n < |events| && Agrees(provider, events, n, kept) && ReusesAt(provider, events, n)
    ensures Agrees(provider, events, n + 1, kept)
  {
    hide Execute, IsReuse;
    var e := events[n];
    ReuseStutters(EnvOf(provider, e.keyVersion), e.draw, e.request, TablesAt(provider, events, n));
  }

  lemma AgreesAtStart(provider: Provider, events: seq<Event>)
    ensures Agrees(provider, events, 0, [])
  {
  }

  lemma {:induction false} TrimmedAgrees(provider: Provider, events: seq<Event>, n: nat)
    requires n <= |events| && forall m: nat | m < n :: !Shadowed(provider, events, m)
    ensures Agrees(provider, events, n, Trimmed(provider, events, n))
  {
    hide Agrees, Step, Shadowed, ReusesAt;
    if n == 0 {
      AgreesAtStart(provider, events);
    } else {
      var kept := Trimmed(provider, events, n - 1);
      TrimmedAgrees(provider, events, n - 1);
      if ReusesAt(provider, events, n - 1) {
        DroppingAgrees(provider, events, n - 1, kept);
        assert kept + [] == kept;
      } else {
        KeepingAgrees(provider, events, n - 1, kept);
      }
    }
  }

  lemma {:induction false} TrimmedPrefix(provider: Provider, events: seq<Event>, n: nat, m: nat)
    requires n <= m <= |events|
    ensures Trimmed(provider, events, n) <= Trimmed(provider, events, m)
    decreases m
  {
    if n < m {
      TrimmedPrefix(provider, events, n, m - 1);
    }
  }

  lemma TrimmedPosition(provider: Provider, events: seq<Event>, n: nat)
    requires n < |events| && !ReusesAt(provider, events, n)
    ensures var trimmed, before := Trimmed(provider, events, |events|), Trimmed(provider, events, n);
            && |before| < |trimmed| && trimmed[|before|] == events[n]
            && TablesAt(provider, trimmed, |before|) == TablesAt(provider, before, |before|)
  {
    var trimmed, before := Trimmed(provider, events, |events|), Trimmed(provider, events, n);
    TrimmedPrefix(provider, events, n + 1, |events|);
    assert Trimmed(provider, events, n + 1) == before + [events[n]];
    assert trimmed[|before|] == (before + [events[n]])[|before|];
    assert trimmed[..|before|] == before == before[..|before|];
    TablesAtPrefix(provider, before, trimmed, |before|);
  }

  /** The event stays in the trimmed run, with the outcome it had. */
  ghost predicate KeepsOutcome(provider: Provider, events: seq<Event>, n: nat)
    requires n < |events|
  {
    var trimmed, position := Trimmed(provider, events, |events|), |Trimmed(provider, events, n)|;
    && position < |trimmed| && trimmed[position] == events[n]
    && OutcomeAt(provider, trimmed, position) == OutcomeAt(provider, events, n)
  }

  lemma UnshadowedKeepsOutcome(provider: Provider, events: seq<Event>, n: nat)
    requires n < |events| && !ReusesAt(provider, events, n) && forall m: nat | m <= n :: !Shadowed(provider, events, m)
    ensures KeepsOutcome(provider, events, n)
  {
    hide Step, ReusesAt, Shadowed, SameTables, TablesAt;
    TrimmedPosition(provider, events, n);
    TrimmedAgrees(provider, events, n);
    KeepingAgrees(provider, events, n, Trimmed(provider, events, n));
  }

  /** The first shadowed call fails in the whole run and succeeds in the trimmed one. */
  lemma ShadowedLosesOutcome(provider: Provider, events: seq<Event>, n: nat)
    requires n < |events| && Shadowed(provider, events, n) && forall m: nat | m < n :: !Shadowed(provider, events, m)
    ensures !KeepsOutcome(provider, events, n)
    ensures OutcomeAt(provider, events, n) == Failure(AuditUnavailable)
  {
    hide IsReuse, Execute, TablesAt, ReachesAudit;
    var kept, e := Trimmed(provider, events, n), events[n];
    var env, a, b := EnvOf(provider, e.keyVersion), TablesAt(provider, events, n), TablesAt(provider, kept, |kept|);
    TrimmedPosition(provider, events, n);
    TrimmedAgrees(provider, events, n);
    SameGuards(env, e.draw, e.request, a, b);
    ReachingCall(env, e.draw, e.request, a);
    ReachingCall(env, e.draw, e.request, b);
  }

  lemma SameGuards(env: Env, draw: Draw, request: Request, a: Db, b: Db)
    requires SameTables(a, b)
    ensures IsReuse(request, a.book) <==> IsReuse(request, b.book)
    ensures ReachesAudit(env, draw, request, a) <==> ReachesAudit(env, draw, request, b)
  {
    hide IntentFor, FamilyLabels, LabelsClean, MetadataFromRow, DecryptRow;
  }

  lemma {:induction false} FirstShadowed(provider: Provider, events: seq<Event>, n: nat)
    requires n < |events| && Shadowed(provider, events, n)
    ensures exists m: nat :: m <= n && Shadowed(provider, events, m) && !KeepsOutcome(provider, events, m)
  {
    hide Shadowed, KeepsOutcome;
    if m: nat :| m < n && Shadowed(provider, events, m) {
      FirstShadowed(provider, events, m);
    } else {
      ShadowedLosesOutcome(provider, events, n);
    }
  }

  /** Deleting every reuse of a correlation id from a run is invisible, that is, keeps the outcome of
      every other event, if and only if no call that stays is shadowed; and then it keeps the four
      final tables too. */
  lemma DeletionIsInvisibleExactly(provider: Provider, events: seq<Event>)
    ensures (forall n: nat | n < |events| && !ReusesAt(provider, events, n) :: KeepsOutcome(provider, events, n))
            <==> (forall n: nat | n < |events| :: !Shadowed(provider, events, n))
    ensures (forall n: nat | n < |events| :: !Shadowed(provider, events, n)) ==>
              var trimmed := Trimmed(provider, events, |events|);
              SameTables(TablesAt(provider, events, |events|), TablesAt(provider, trimmed, |trimmed|))
  {
    hide KeepsOutcome, ReusesAt, ReachesAudit, SameTables, TablesAt;
    if forall n: nat | n < |events| :: !Shadowed(provider, events, n) {
      TrimmedAgrees(provider, events, |events|);
      forall n: nat | n < |events| && !ReusesAt(provider, events, n) ensures KeepsOutcome(provider, events, n) {
        UnshadowedKeepsOutcome(provider, events, n);
      }
    } else {
      var n: nat :| n < |events| && Shadowed(provider, events, n);
      FirstShadowed(provider, events, n);
    }
  }

  /** The event ids the deleted calls drew, written or not. */
  ghost function DroppedIds(provider: Provider, events: seq<Event>, n: nat): set<string>
    requires n <= |events|
  {
    if n == 0 then {}
    else
      DroppedIds(provider, events, n - 1)
      + (if ReusesAt(provider, events, n - 1) then {events[n - 1].draw.eventId} else {})
  }

  /** No call that stays draws an event id that a deleted call drew before it. */
  ghost predicate KeptIdsFresh(provider: Provider, events: seq<Event>)
  {
    forall n | 0 <= n < |events| && events[n].Called? && !ReusesAt(provider, events, n) ::
      events[n].draw.eventId !in DroppedIds(provider, events, n)
  }

  lemma {:induction false} WrittenWereDrawn(provider: Provider, events: seq<Event>, n: nat)
    requires n <= |events|
    ensures WrittenIds(provider, events, n) <= DroppedIds(provider, events, n)
  {
    hide Execute, IsReuse, SameTables;
    if n > 0 {
      WrittenWereDrawn(provider, events, n - 1);
      if ReusesAt(provider, events, n - 1) {
        var e := events[n - 1];
        ReuseStutters(EnvOf(provider, e.keyVersion), e.draw, e.request, TablesAt(provider, events, n - 1));
      }
    }
  }

  /** With fresh event ids, as `uuid4` makes them, deleting every reuse is invisible. */
  lemma DeletingReusesChangesNothing(provider: Provider, events: seq<Event>, n: nat)
    requires KeptIdsFresh(provider, events) && n <= |events|
    ensures var trimmed := Trimmed(provider, events, |events|);
            SameTables(TablesAt(provider, events, |events|), TablesAt(provider, trimmed, |trimmed|))
    ensures n < |events| && !ReusesAt(provider, events, n) ==> KeepsOutcome(provider, events, n)
  {
    hide KeepsOutcome, ReusesAt, ReachesAudit, SameTables, TablesAt;
    forall m: nat | m < |events| ensures !Shadowed(provider, events, m) {
      WrittenWereDrawn(provider, events, m);
    }
    DeletionIsInvisibleExactly(provider, events);
  }

  // ----- A shadowed call --------------------------------------------------------------------

  /** A version created, revoked, its revocation replayed under event id "b", and then an append that
      draws "b" again. */
  function SharedIdRun(draw: Draw, record: AuditRecord): seq<Event>
  {
    var revoke := RevokeVersion("w", "s", "v", 1, "c", "r", "p");
    [ Called("k", draw.(versionId := "v"), Create("w", "s", [], map[])), Called("k", draw.(eventId := "a"), revoke),
      Called("k", draw.(eventId := "b"), revoke), Called("k", draw.(eventId := "b"), AppendAudit(record)) ]
  }

  lemma SharedIdVault(provider: Provider, draw: Draw, record: AuditRecord)
    requires Lawful(provider.primitives)
    ensures var events, secret, at := SharedIdRun(draw, record), SecretKey("w", "s"), CorrelationKey("w", "r");
            && at !in VaultAt(provider, events, 1).book.revocations
            && at in VaultAt(provider, events, 2).book.revocations
            && VaultAt(provider, events, 2).book.audit.Keys == {"a"}
            && VaultAt(provider, events, 3).book.audit.Keys == {"a", "b"}
  {
    hide Label;
    var events := SharedIdRun(draw, record);
    var env := EnvOf(provider, "k");
    var m := FreshMetadata(env, draw.(versionId := "v"), "w", "s", map[], 1);
    var v1 := VaultAt(provider, events, 1);
    assert VaultAt(provider, events, 0) == EMPTY_VAULT;
    assert Versions(v1, SecretKey("w", "s")) == [Version(m, [])];
    assert v1.book == EMPTY_VAULT.book;
    assert IndexOf(Versions(v1, SecretKey("w", "s")), "v") == Some(0);
    var v2 := VaultAt(provider, events, 2);
    assert v2.book.revocations == map[CorrelationKey("w", "r") := Revocation("s", "v", 1, "c", draw.now)];
    assert v2.book.audit.Keys == {"a"};
    assert |Versions(v2, SecretKey("w", "s"))| == 1;
    assert "a"[0] != "b"[0];
  }

  /** Such runs exist: here the append is shadowed. It fails in the whole run, on the id the replay took,
      and succeeds when the replay is deleted. */
  lemma SharedEventIdShowsDeletion(provider: Provider, draw: Draw, record: AuditRecord)
    requires Lawful(provider.primitives)
    ensures var events := SharedIdRun(draw, record);
            var trimmed := Trimmed(provider, events, 4);
            && trimmed == [events[0], events[1], events[3]] && Shadowed(provider, events, 3)
            && OutcomeAt(provider, events, 3) == Failure(AuditUnavailable)
            && OutcomeAt(provider, trimmed, 2) == Success(Appended)
  {
    hide TablesAt, VaultAt, Perform, Step;
    var events := SharedIdRun(draw, record);
    SharedIdVault(provider, draw, record);
    SameBook(provider, events, 0);
    SameBook(provider, events, 1);
    SameBook(provider, events, 2);
    SameBook(provider, events, 3);
    assert Trimmed(provider, events, 1) == [events[0]];
    assert Trimmed(provider, events, 2) == [events[0], events[1]];
    assert Trimmed(provider, events, 3) == [events[0], events[1]];
    var trimmed := Trimmed(provider, events, 4);
    assert trimmed == [events[0], events[1], events[3]];
    assert trimmed[..2] == events[..2];
    TablesAtPrefix(provider, events, trimmed, 2);
    AppendOutcome(provider, events, 3);
    AppendOutcome(provider, trimmed, 2);
    assert "a"[0] != "b"[0];
  }

  lemma AppendOutcome(provider: Provider, events: seq<Event>, n: nat)
    requires n < |events| && events[n].Called? && events[n].request.AppendAudit?
    ensures OutcomeAt(provider, events, n)
            == if events[n].draw.eventId in TablesAt(provider, events, n).book.audit then Failure(AuditUnavailable)
               else Success(Appended)
  {
    hide TablesAt;
    CommitOne(TablesAt(provider, events, n), InsertAudit(events[n].draw.eventId, events[n].request.record), Appended);
  }
}
