/** Many clients on one database file: begin, read, write, commit and rollback as separate steps,
    with failing statements and commits, refused locks and crashes. Every interleaving is a serial run. */
module Concurrency {
  import opened Wrappers
  import opened Models
  import opened Crypto
  import opened Tables
  import opened StoreSpec
  import opened Runs
  import opened Replay

  datatype Call = Call(keyVersion: string, draw: Draw, request: Request)

  /** What one client's call has done so far. `since` is the length of the log when it began. */
  datatype Session =
    | Idle
    | Started(call: Call, since: nat, pending: Db)
    | Writing(call: Call, since: nat, plan: Plan, written: nat, pending: Db)
    | Raised(call: Call, since: nat, error: Error)
    | Answered(call: Call, since: nat, position: nat, outcome: Outcome)

  /** `log` lists the calls in the order they took effect; no step looks at it. */
  datatype State = State(committed: Db, holder: Option<nat>, sessions: map<nat, Session>, log: seq<Event>)

  datatype Action =
    | Begin(client: nat, call: Call)
    | Read(client: nat)
    | Write(client: nat)
    | CommitCall(client: nat)
    | Rollback(client: nat)
    | Fail(client: nat)
    | Refuse(client: nat, call: Call)
    | Look(client: nat, call: Call)
    | Deliver(client: nat)
    | Crash

  function SessionOf(s: State, client: nat): Session
  {
    if client in s.sessions then s.sessions[client] else Idle
  }

  function EventOf(call: Call): Event
  {
    Called(call.keyVersion, call.draw, call.request)
  }

  predicate LockFree(request: Request)
  {
    request.ReadMetadata? || request.Resolve?
  }

  predicate InTransaction(session: Session)
  {
    session.Started? || session.Writing? || session.Raised?
  }

  function With(s: State, client: nat, session: Session): State
  {
    s.(sessions := s.sessions[client := session])
  }

  /** A call leaves its transaction, if any, with an answer, and joins the log. */
  function Answer(s: State, client: nat, call: Call, since: nat, committed: Db, event: Event, outcome: Outcome): State
  {
    var holder := if s.holder == Some(client) then None else s.holder;
    State(committed, holder, s.sessions[client := Answered(call, since, |s.log|, outcome)], s.log + [event])
  }

  /** One step; a step that is not enabled does nothing. */
  ghost function Next(provider: Provider, s: State, a: Action): State
  {
    if a.Crash? then State(s.committed, None, map[], s.log)
    else
      var session := SessionOf(s, a.client);
      match a
      case Begin(c, call) =>
        if session.Idle? && s.holder.None? && !LockFree(call.request) then
          With(s, c, Started(call, |s.log|, s.committed)).(holder := Some(c))
        else s
      case Read(c) =>
        if !session.Started? then s
        else
          var plan := PlanOf(EnvOf(provider, session.call.keyVersion), session.call.draw, session.call.request,
                             session.pending);
          With(s, c, Writing(session.call, session.since, plan, 0, session.pending))
      case Write(c) =>
        if !session.Writing? || session.written >= |session.plan.statements| then s
        else
          (match Apply(session.pending, session.plan.statements[session.written])
           case Failure(e) => With(s, c, Raised(session.call, session.since, e))
           case Success(next) => With(s, c, session.(written := session.written + 1, pending := next)))
      case CommitCall(c) =>
        if session.Writing? && session.written == |session.plan.statements| && session.plan.outcome.Success? then
          Answer(s, c, session.call, session.since, session.pending, EventOf(session.call), session.plan.outcome)
        else s
      case Rollback(c) =>
        if session.Raised? then
          Answer(s, c, session.call, session.since, s.committed, EventOf(session.call), Failure(session.error))
        else if session.Writing? && session.written == |session.plan.statements| && session.plan.outcome.Failure? then
          Answer(s, c, session.call, session.since, s.committed, EventOf(session.call), session.plan.outcome)
        else s
      case Fail(c) =>
        if InTransaction(session) then
          Answer(s, c, session.call, session.since, s.committed, Faulted, Failure(StorageFailure))
        else s
      case Refuse(c, call) =>
        if session.Idle? then Answer(s, c, call, |s.log|, s.committed, Faulted, Failure(StorageFailure)) else s
      case Look(c, call) =>
        if session.Idle? && LockFree(call.request) then
          Answer(s, c, call, |s.log|, s.committed, EventOf(call),
                 PlanOf(EnvOf(provider, call.keyVersion), call.draw, call.request, s.committed).outcome)
        else s
      case Deliver(c) => if session.Answered? then With(s, c, Idle) else s
  }

  ghost function StateAt(provider: Provider, actions: seq<Action>, n: nat): State
    requires n <= |actions|
  {
    if n == 0 then State(EMPTY_DB, None, map[], [])
    else Next(provider, StateAt(provider, actions, n - 1), actions[n - 1])
  }

  // ----- The invariant ----------------------------------------------------------------------

  ghost predicate AnsweredSerially(provider: Provider, log: seq<Event>, call: Call, since: nat, position: nat,
                                   outcome: Outcome)
  {
    && since <= position < |log|
    && (log[position] == EventOf(call) || (log[position] == Faulted && outcome == Failure(StorageFailure)))
    && OutcomeAt(provider, log, position) == outcome
  }

  ghost predicate SessionHolds(provider: Provider, s: State, client: nat)
  {
    match SessionOf(s, client)
    case Idle => true
    case Started(call, since, pending) =>
      s.holder == Some(client) && since <= |s.log| && pending == s.committed
    case Writing(call, since, plan, written, pending) =>
      && s.holder == Some(client) && since <= |s.log| && written <= |plan.statements|
      && plan == PlanOf(EnvOf(provider, call.keyVersion), call.draw, call.request, s.committed)
      && ApplyAll(s.committed, plan.statements) == ApplyAll(pending, plan.statements[written..])
    case Raised(call, since, e) =>
      && s.holder == Some(client) && since <= |s.log|
      && Execute(EnvOf(provider, call.keyVersion), call.draw, call.request, s.committed) == (s.committed, Failure(e))
    case Answered(call, since, position, outcome) =>
      AnsweredSerially(provider, s.log, call, since, position, outcome)
  }

  ghost predicate SerialSoFar(provider: Provider, s: State)
  {
    && s.committed == TablesAt(provider, s.log, |s.log|)
    && forall client: nat :: SessionHolds(provider, s, client)
  }

  lemma AnsweredStays(provider: Provider, log: seq<Event>, e: Event, call: Call, since: nat, position: nat,
                      outcome: Outcome)
    requires AnsweredSerially(provider, log, call, since, position, outcome)
    ensures AnsweredSerially(provider, log + [e], call, since, position, outcome)
  {
    OutcomeAtPrefix(provider, log, log + [e], position);
  }

  /** Leaving a transaction with the outcome and the tables of one serial step. */
  lemma AnswerKeeps(provider: Provider, s: State, client: nat, call: Call, since: nat, committed: Db, event: Event,
                    outcome: Outcome)
    requires SerialSoFar(provider, s) && since <= |s.log|
    requires committed != s.committed ==> s.holder == Some(client)
    requires Step(provider, event, s.committed) == (committed, outcome)
    requires event == EventOf(call) || event == Faulted
    ensures SerialSoFar(provider, Answer(s, client, call, since, committed, event, outcome))
  {
    hide Step, PlanOf, Execute;
    var t := Answer(s, client, call, since, committed, event, outcome);
    TablesAfterOneMore(provider, s.log, event);
    OutcomeAfterOneMore(provider, s.log, event);
    forall other: nat ensures SessionHolds(provider, t, other) {
      assert SessionHolds(provider, s, other);
      var session := SessionOf(s, other);
      if other == client {
        if event == Faulted { FaultedStep(provider, s.committed); }
      } else if session.Answered? {
        AnsweredStays(provider, s.log, event, session.call, session.since, session.position, session.outcome);
      }
    }
  }

  lemma FaultedStep(provider: Provider, db: Db)
    ensures Step(provider, Faulted, db) == (db, Failure(StorageFailure))
  {
  }

  /** A step inside one client's transaction, or none at all. */
  lemma WithKeeps(provider: Provider, s: State, client: nat, session: Session, holder: Option<nat>)
    requires SerialSoFar(provider, s)
    requires holder == s.holder || s.holder.None?
    requires SessionHolds(provider, With(s, client, session).(holder := holder), client)
    ensures SerialSoFar(provider, With(s, client, session).(holder := holder))
  {
    hide PlanOf, Execute, TablesAt, AnsweredSerially;
    var t := With(s, client, session).(holder := holder);
    forall other: nat ensures SessionHolds(provider, t, other) {
      assert SessionHolds(provider, s, other);
    }
  }

  lemma CommitsSerially(provider: Provider, s: State, client: nat)
    requires SerialSoFar(provider, s)
    requires var session := SessionOf(s, client); session.Writing? && session.written == |session.plan.statements|
    ensures var session := SessionOf(s, client);
            Step(provider, EventOf(session.call), s.committed)
            == if session.plan.outcome.Success? then (session.pending, session.plan.outcome)
               else (s.committed, session.plan.outcome)
  {
    hide PlanOf, TablesAt;
    assert SessionHolds(provider, s, client);
    var session := SessionOf(s, client);
    assert session.plan.statements[session.written..] == [];
  }

  lemma LooksSerially(provider: Provider, s: State, call: Call)
    requires LockFree(call.request)
    ensures Step(provider, EventOf(call), s.committed)
            == (s.committed, PlanOf(EnvOf(provider, call.keyVersion), call.draw, call.request, s.committed).outcome)
  {
    hide MetadataFromRow, DecryptRow, SelectRow;
  }

  lemma RaisesSerially(provider: Provider, s: State, client: nat, e: Error)
    requires SerialSoFar(provider, s)
    requires var session := SessionOf(s, client);
             session.Writing? && session.written < |session.plan.statements|
             && Apply(session.pending, session.plan.statements[session.written]) == Failure(e)
    ensures var call := SessionOf(s, client).call;
            Execute(EnvOf(provider, call.keyVersion), call.draw, call.request, s.committed) == (s.committed, Failure(e))
  {
    hide PlanOf, TablesAt, Apply;
    assert SessionHolds(provider, s, client);
  }

  lemma WriteKeeps(provider: Provider, s: State, client: nat)
    requires SerialSoFar(provider, s)
    ensures SerialSoFar(provider, Next(provider, s, Write(client)))
  {
    hide SerialSoFar, PlanOf, Apply, AnsweredSerially, TablesAt, Execute;
    var session := SessionOf(s, client);
    if session.Writing? && session.written < |session.plan.statements| {
      HoldsFor(provider, s, client);
      var tail := session.plan.statements[session.written..];
      assert tail[1..] == session.plan.statements[session.written + 1..];
      match Apply(session.pending, session.plan.statements[session.written]) {
      case Failure(e) =>
        RaisesSerially(provider, s, client, e);
        WithKeeps(provider, s, client, Raised(session.call, session.since, e), s.holder);
      case Success(next) =>
        WithKeeps(provider, s, client, session.(written := session.written + 1, pending := next), s.holder);
      }
    }
  }

  lemma HoldsFor(provider: Provider, s: State, client: nat)
    requires SerialSoFar(provider, s)
    ensures SessionHolds(provider, s, client)
  {
  }

  lemma FinishKeeps(provider: Provider, s: State, a: Action)
    requires SerialSoFar(provider, s) && (a.CommitCall? || a.Rollback? || a.Fail?)
    ensures SerialSoFar(provider, Next(provider, s, a))
  {
    hide SerialSoFar, PlanOf, AnsweredSerially, TablesAt, ApplyAll, Execute, Answer;
    var session := SessionOf(s, a.client);
    HoldsFor(provider, s, a.client);
    if InTransaction(session) {
      if a.Fail? {
        FaultedStep(provider, s.committed);
        AnswerKeeps(provider, s, a.client, session.call, session.since, s.committed, Faulted, Failure(StorageFailure));
      } else if session.Raised? && a.Rollback? {
        AnswerKeeps(provider, s, a.client, session.call, session.since, s.committed, EventOf(session.call),
                    Failure(session.error));
      } else if session.Writing? && session.written == |session.plan.statements| {
        CommitsSerially(provider, s, a.client);
        if a.CommitCall? && session.plan.outcome.Success? {
          AnswerKeeps(provider, s, a.client, session.call, session.since, session.pending, EventOf(session.call),
                      session.plan.outcome);
        } else if a.Rollback? && session.plan.outcome.Failure? {
          AnswerKeeps(provider, s, a.client, session.call, session.since, s.committed, EventOf(session.call),
                      session.plan.outcome);
        }
      }
    }
  }

  lemma NextKeeps(provider: Provider, s: State, a: Action)
    requires SerialSoFar(provider, s)
    ensures SerialSoFar(provider, Next(provider, s, a))
  {
    hide PlanOf, AnsweredSerially, TablesAt, Execute, Step;
    match a
    case Begin(c, call) =>
      if SessionOf(s, c).Idle? && s.holder.None? && !LockFree(call.request) {
        WithKeeps(provider, s, c, Started(call, |s.log|, s.committed), Some(c));
      }
    case Read(c) =>
      var session := SessionOf(s, c);
      if session.Started? {
        HoldsFor(provider, s, c);
        var plan := PlanOf(EnvOf(provider, session.call.keyVersion), session.call.draw, session.call.request,
                           session.pending);
        assert plan.statements[0..] == plan.statements;
        WithKeeps(provider, s, c, Writing(session.call, session.since, plan, 0, session.pending), s.holder);
      }
    case Write(c) => WriteKeeps(provider, s, c);
    case CommitCall(_) => FinishKeeps(provider, s, a);
    case Rollback(_) => FinishKeeps(provider, s, a);
    case Fail(_) => FinishKeeps(provider, s, a);
    case Refuse(c, call) =>
      if SessionOf(s, c).Idle? {
        FaultedStep(provider, s.committed);
        AnswerKeeps(provider, s, c, call, |s.log|, s.committed, Faulted, Failure(StorageFailure));
      }
    case Look(c, call) =>
      if SessionOf(s, c).Idle? && LockFree(call.request) {
        LooksSerially(provider, s, call);
        AnswerKeeps(provider, s, c, call, |s.log|, s.committed, EventOf(call),
                    PlanOf(EnvOf(provider, call.keyVersion), call.draw, call.request, s.committed).outcome);
      }
    case Deliver(c) =>
      if SessionOf(s, c).Answered? {
        WithKeeps(provider, s, c, Idle, s.holder);
      }
    case Crash =>
  }

  // ----- Theorems ---------------------------------------------------------------------------

  /** After any interleaving the file holds the tables of the serial run in the log, and every
      answer is the outcome its call has at its place in that run. A success is only ever answered
      after its transaction committed; a call that raised, failed or crashed left nothing behind. */
  lemma {:induction false} EveryInterleavingIsSerial(provider: Provider, actions: seq<Action>, n: nat)
    requires n <= |actions|
    ensures SerialSoFar(provider, StateAt(provider, actions, n))
  {
    hide SerialSoFar, Next;
    if n == 0 {
      StartsSerial(provider);
    } else {
      EveryInterleavingIsSerial(provider, actions, n - 1);
      NextKeeps(provider, StateAt(provider, actions, n - 1), actions[n - 1]);
    }
  }

  lemma StartsSerial(provider: Provider)
    ensures SerialSoFar(provider, State(EMPTY_DB, None, map[], []))
  {
  }

  lemma {:induction false} LogGrows(provider: Provider, actions: seq<Action>, i: nat, j: nat)
    requires i <= j <= |actions|
    ensures StateAt(provider, actions, i).log <= StateAt(provider, actions, j).log
    decreases j
  {
    hide PlanOf, Apply;
    if i < j {
      LogGrows(provider, actions, i, j - 1);
    }
  }

  lemma {:induction false} LogPassesThrough(provider: Provider, actions: seq<Action>, n: nat, length: nat)
    requires n <= |actions| && length <= |StateAt(provider, actions, n).log|
    ensures exists m: nat :: m <= n && |StateAt(provider, actions, m).log| == length
  {
    hide PlanOf, Apply, TablesAt;
    if |StateAt(provider, actions, n).log| != length {
      LogPassesThrough(provider, actions, n - 1, length);
    }
  }

  /** The file held the effects of every answered call at some moment before the answer, and a call
      answered with a failure changed nothing. */
  lemma AnswersWereCommitted(provider: Provider, actions: seq<Action>, n: nat, client: nat)
    requires n <= |actions| && SessionOf(StateAt(provider, actions, n), client).Answered?
    ensures var log := StateAt(provider, actions, n).log;
            var session := SessionOf(StateAt(provider, actions, n), client);
            && session.position < |log|
            && (session.outcome.Failure? ==>
                  TablesAt(provider, log, session.position + 1) == TablesAt(provider, log, session.position))
            && exists m: nat :: m <= n && |StateAt(provider, actions, m).log| == session.position + 1
                                && StateAt(provider, actions, m).committed
                                   == TablesAt(provider, log, session.position + 1)
  {
    hide PlanOf, Apply, Next;
    var log := StateAt(provider, actions, n).log;
    var session := SessionOf(StateAt(provider, actions, n), client);
    EveryInterleavingIsSerial(provider, actions, n);
    HoldsFor(provider, StateAt(provider, actions, n), client);
    LogPassesThrough(provider, actions, n, session.position + 1);
    var m: nat :| m <= n && |StateAt(provider, actions, m).log| == session.position + 1;
    EveryInterleavingIsSerial(provider, actions, m);
    LogGrows(provider, actions, m, n);
    TablesAtPrefix(provider, StateAt(provider, actions, m).log, log, session.position + 1);
  }

  lemma {:induction false} BeganLater(provider: Provider, actions: seq<Action>, i: nat, j: nat, client: nat)
    requires i <= j <= |actions| && SessionOf(StateAt(provider, actions, i), client).Idle?
    ensures var session := SessionOf(StateAt(provider, actions, j), client);
            session.Idle? || session.since >= |StateAt(provider, actions, i).log|
    decreases j
  {
    hide PlanOf, Apply;
    if i < j {
      BeganLater(provider, actions, i, j - 1, client);
      LogGrows(provider, actions, i, j - 1);
    }
  }

  /** The serial order respects real time: a call answered before another began comes before it. */
  lemma SerialOrderIsRealTime(provider: Provider, actions: seq<Action>, i: nat, j: nat, first: nat, second: nat)
    requires i <= j <= |actions|
    requires SessionOf(StateAt(provider, actions, i), first).Answered?
    requires SessionOf(StateAt(provider, actions, i), second).Idle?
    requires SessionOf(StateAt(provider, actions, j), second).Answered?
    ensures SessionOf(StateAt(provider, actions, i), first).position
            < SessionOf(StateAt(provider, actions, j), second).position
  {
    hide PlanOf, Apply, Next, TablesAt;
    EveryInterleavingIsSerial(provider, actions, i);
    EveryInterleavingIsSerial(provider, actions, j);
    HoldsFor(provider, StateAt(provider, actions, i), first);
    HoldsFor(provider, StateAt(provider, actions, j), second);
    BeganLater(provider, actions, i, j, second);
  }

  /** Two answered resolves under one correlation return the same version and value, whichever
      clients made them and however the steps of all clients interleaved. */
  lemma ConcurrentResolvesAgree(provider: Provider, actions: seq<Action>, i: nat, j: nat, first: nat, second: nat)
    requires Lawful(provider.primitives) && i <= j <= |actions|
    requires var a := SessionOf(StateAt(provider, actions, i), first);
             var b := SessionOf(StateAt(provider, actions, j), second);
             && a.Answered? && b.Answered? && a.outcome.Success? && b.outcome.Success?
             && a.call.request.ResolveForUse? && b.call.request.ResolveForUse?
             && a.call.request.workspaceId == b.call.request.workspaceId
             && a.call.request.correlationId == b.call.request.correlationId
    ensures SessionOf(StateAt(provider, actions, i), first).outcome
            == SessionOf(StateAt(provider, actions, j), second).outcome
  {
    hide PlanOf, Apply, Next, TablesAt, Step;
    var a, b := SessionOf(StateAt(provider, actions, i), first), SessionOf(StateAt(provider, actions, j), second);
    var log := StateAt(provider, actions, j).log;
    EveryInterleavingIsSerial(provider, actions, i);
    EveryInterleavingIsSerial(provider, actions, j);
    HoldsFor(provider, StateAt(provider, actions, i), first);
    HoldsFor(provider, StateAt(provider, actions, j), second);
    LogGrows(provider, actions, i, j);
    OutcomeAtPrefix(provider, StateAt(provider, actions, i).log, log, a.position);
    if a.position < b.position {
      PinDecidesEveryRetry(provider, log, a.position, b.position);
    } else if b.position < a.position {
      PinDecidesEveryRetry(provider, log, b.position, a.position);
    }
  }

  // ----- Failures come only from failing steps ----------------------------------------------

  lemma {:induction false} LoopMeetsNoFault(env: Env, draw: Draw, versions: map<VersionKey, VersionRow>,
                                            ks: seq<VersionKey>, i: nat)
    requires i <= |ks| && forall k :: k in ks ==> k in versions
    ensures RevokeRows(env, draw, versions, ks, i).outcome != Failure(StorageFailure)
    decreases |ks| - i
  {
    if i < |ks| {
      LoopMeetsNoFault(env, draw, versions, ks, i + 1);
    }
  }

  lemma {:induction false} StatementsMeetNoFault(db: Db, statements: seq<Statement>)
    ensures ApplyAll(db, statements) != Failure(StorageFailure)
    decreases |statements|
  {
    hide NumberTaken, SecretGenerated, VersionRevocationRecorded;
    if statements != [] && Apply(db, statements[0]).Success? {
      StatementsMeetNoFault(Apply(db, statements[0]).value, statements[1..]);
    }
  }

  lemma PlansMeetNoFault(env: Env, draw: Draw, request: Request, db: Db)
    ensures PlanOf(env, draw, request, db).outcome != Failure(StorageFailure)
  {
    hide MetadataFromRow, LatestRow, LabelsClean, FamilyLabels, Signing.IntentFor, Label, MaterialMatches,
         VersionRevocationRecorded, SealedRow, Encrypt;
    if request.RevokeSecret? {
      var ks := Ascending(db.versions, RowsOf(db.versions, SecretKey(request.workspaceId, request.secretId)));
      LoopMeetsNoFault(env, draw, db.versions, ks, 0);
    }
  }

  /** No call that storage lets through raises a storage failure. */
  lemma CallsMeetNoFault(env: Env, draw: Draw, request: Request, db: Db)
    ensures Execute(env, draw, request, db).1 != Failure(StorageFailure)
  {
    hide PlanOf, ApplyAll;
    PlansMeetNoFault(env, draw, request, db);
    StatementsMeetNoFault(db, PlanOf(env, draw, request, db).statements);
  }

  /** What a step adds to the log: nothing, the acting client's call, or, only when storage fails or
      refuses, a fault. */
  lemma StepLogs(provider: Provider, s: State, a: Action)
    ensures var t := Next(provider, s, a);
            || t.log == s.log
            || (!a.Crash? && (a.Fail? || a.Refuse?) && t.log == s.log + [Faulted])
            || ((a.CommitCall? || a.Rollback?) && InTransaction(SessionOf(s, a.client))
                && t.log == s.log + [EventOf(SessionOf(s, a.client).call)])
            || (a.Look? && t.log == s.log + [EventOf(a.call)])
  {
    hide PlanOf, Apply;
  }

  /** Every fault in the log is the doing of a failing or refused step. */
  lemma {:induction false} FaultsHaveCauses(provider: Provider, actions: seq<Action>, n: nat, position: nat)
    requires n <= |actions| && position < |StateAt(provider, actions, n).log|
    requires StateAt(provider, actions, n).log[position] == Faulted
    ensures exists k: nat :: k < n && (actions[k].Fail? || actions[k].Refuse?)
                             && |StateAt(provider, actions, k).log| == position
  {
    hide Next, TablesAt;
    var s := StateAt(provider, actions, n - 1);
    StepLogs(provider, s, actions[n - 1]);
    if position < |s.log| {
      FaultsHaveCauses(provider, actions, n - 1, position);
    }
  }

  /** Without failing and refused steps every answer is the outcome of its own call at its place in the
      serial run, and none is a storage failure. */
  lemma AnswersWithoutFailures(provider: Provider, actions: seq<Action>, n: nat, client: nat)
    requires n <= |actions| && forall k: nat | k < n :: !actions[k].Fail? && !actions[k].Refuse?
    requires SessionOf(StateAt(provider, actions, n), client).Answered?
    ensures var log := StateAt(provider, actions, n).log;
            var session := SessionOf(StateAt(provider, actions, n), client);
            && session.position < |log| && log[session.position] == EventOf(session.call)
            && session.outcome == OutcomeAt(provider, log, session.position)
            && session.outcome != Failure(StorageFailure)
  {
    hide Next, TablesAt, StateAt, Execute;
    var log, session := StateAt(provider, actions, n).log, SessionOf(StateAt(provider, actions, n), client);
    EveryInterleavingIsSerial(provider, actions, n);
    HoldsFor(provider, StateAt(provider, actions, n), client);
    if log[session.position] == Faulted {
      FaultsHaveCauses(provider, actions, n, session.position);
    }
    var call := session.call;
    CallsMeetNoFault(EnvOf(provider, call.keyVersion), call.draw, call.request,
                     TablesAt(provider, log, session.position));
  }

  // ----- Progress ---------------------------------------------------------------------------

  /** The steps of one client among those from `i` to `j`. */
  function OwnSteps(actions: seq<Action>, client: nat, i: nat, j: nat): seq<Action>
    requires i <= j <= |actions|
  {
    if i == j then []
    else
      var a := actions[j - 1];
      OwnSteps(actions, client, i, j - 1) + if !a.Crash? && a.client == client then [a] else []
  }

  /** A read and one write per statement. */
  function Script(client: nat, writes: nat): seq<Action>
  {
    [Read(client)] + seq(writes, i requires 0 <= i < writes => Write(client))
  }

  /** The session of a call after this many steps of its script. */
  ghost function Halfway(call: Call, since: nat, plan: Plan, start: Db, steps: nat): Session
    requires steps <= |plan.statements| + 1
  {
    if steps == 0 then Started(call, since, start)
    else
      match ApplyAll(start, plan.statements[..steps - 1])
      case Success(pending) => Writing(call, since, plan, steps - 1, pending)
      case Failure(e) => Raised(call, since, e)
  }

  /** A step of another client while `client` holds the lock. */
  lemma OtherStep(provider: Provider, s: State, a: Action, client: nat)
    requires SerialSoFar(provider, s) && s.holder == Some(client) && !a.Crash? && a.client != client
    ensures var t := Next(provider, s, a);
            t.committed == s.committed && t.holder == s.holder && SessionOf(t, client) == SessionOf(s, client)
  {
    hide PlanOf, Apply, AnsweredSerially, TablesAt, Execute;
    HoldsFor(provider, s, a.client);
  }

  lemma BeginStep(provider: Provider, s: State, client: nat, call: Call, plan: Plan)
    requires s.holder.None? && SessionOf(s, client).Idle? && !LockFree(call.request)
    ensures var t := Next(provider, s, Begin(client, call));
            && t.committed == s.committed && t.holder == Some(client)
            && SessionOf(t, client) == Halfway(call, |s.log|, plan, s.committed, 0)
  {
    hide PlanOf;
  }

  lemma ReadStep(provider: Provider, s: State, client: nat, call: Call, since: nat, plan: Plan)
    requires plan == PlanOf(EnvOf(provider, call.keyVersion), call.draw, call.request, s.committed)
    requires SessionOf(s, client) == Halfway(call, since, plan, s.committed, 0)
    ensures var t := Next(provider, s, Read(client));
            && t.committed == s.committed && t.holder == s.holder
            && SessionOf(t, client) == Halfway(call, since, plan, s.committed, 1)
  {
    hide PlanOf;
  }

  lemma ApplyOneMore(db: Db, statements: seq<Statement>, i: nat)
    requires i < |statements|
    ensures ApplyAll(db, statements[..i + 1])
            == match ApplyAll(db, statements[..i])
               case Failure(e) => Failure(e)
               case Success(next) => Apply(next, statements[i])
  {
    hide Apply;
    assert statements[..i + 1] == statements[..i] + [statements[i]];
    ApplyAllAppend(db, statements[..i], [statements[i]]);
    if ApplyAll(db, statements[..i]).Success? {
      ApplyOne(ApplyAll(db, statements[..i]).value, statements[i]);
    }
  }

  lemma WriteStep(provider: Provider, s: State, client: nat, call: Call, since: nat, plan: Plan, steps: nat)
    requires 1 <= steps <= |plan.statements| && SessionOf(s, client) == Halfway(call, since, plan, s.committed, steps)
    ensures var t := Next(provider, s, Write(client));
            && t.committed == s.committed && t.holder == s.holder
            && SessionOf(t, client) == Halfway(call, since, plan, s.committed, steps + 1)
  {
    hide Apply, ApplyAll;
    ApplyOneMore(s.committed, plan.statements, steps - 1);
  }

  lemma OwnStepsGrow(actions: seq<Action>, client: nat, i: nat, j: nat, k: nat)
    requires i <= j <= k <= |actions|
    ensures OwnSteps(actions, client, i, j) <= OwnSteps(actions, client, i, k)
    decreases k
  {
    if j < k {
      OwnStepsGrow(actions, client, i, j, k - 1);
    }
  }

  /** Partway through its script a call is where its own steps have brought it, whatever the others did. */
  lemma {:induction false} CallsAdvance(provider: Provider, actions: seq<Action>, i: nat, k: nat, client: nat,
                                        call: Call)
    requires i < k <= |actions| && actions[i] == Begin(client, call) && !LockFree(call.request)
    requires StateAt(provider, actions, i).holder.None? && SessionOf(StateAt(provider, actions, i), client).Idle?
    requires forall m | i <= m < k :: !actions[m].Crash?
    requires var plan := PlanOf(EnvOf(provider, call.keyVersion), call.draw, call.request,
                                StateAt(provider, actions, i).committed);
             OwnSteps(actions, client, i + 1, k) <= Script(client, |plan.statements|)
    ensures var start := StateAt(provider, actions, i);
            var plan := PlanOf(EnvOf(provider, call.keyVersion), call.draw, call.request, start.committed);
            var s, steps := StateAt(provider, actions, k), |OwnSteps(actions, client, i + 1, k)|;
            && s.committed == start.committed && s.holder == Some(client)
            && SessionOf(s, client) == Halfway(call, |start.log|, plan, start.committed, steps)
    decreases k
  {
    hide PlanOf, SerialSoFar, Next, Halfway;
    var start := StateAt(provider, actions, i);
    var plan := PlanOf(EnvOf(provider, call.keyVersion), call.draw, call.request, start.committed);
    if k == i + 1 {
      BeginStep(provider, start, client, call, plan);
    } else {
      var script, before := Script(client, |plan.statements|), OwnSteps(actions, client, i + 1, k - 1);
      var s, a := StateAt(provider, actions, k - 1), actions[k - 1];
      OwnStepsGrow(actions, client, i + 1, k - 1, k);
      CallsAdvance(provider, actions, i, k - 1, client, call);
      if a.client != client {
        EveryInterleavingIsSerial(provider, actions, k - 1);
        OtherStep(provider, s, a, client);
        assert OwnSteps(actions, client, i + 1, k) == before;
      } else {
        assert OwnSteps(actions, client, i + 1, k) == before + [a];
        assert a == (before + [a])[|before|] == script[|before|];
        if |before| == 0 {
          ReadStep(provider, s, client, call, |start.log|, plan);
        } else {
          WriteStep(provider, s, client, call, |start.log|, plan, |before|);
        }
      }
    }
  }

  /** The last step of a call whose script is done. */
  lemma FinishStep(provider: Provider, s: State, client: nat, call: Call, since: nat)
    requires var plan := PlanOf(EnvOf(provider, call.keyVersion), call.draw, call.request, s.committed);
             SessionOf(s, client) == Halfway(call, since, plan, s.committed, |plan.statements| + 1)
    ensures var (after, outcome) := Execute(EnvOf(provider, call.keyVersion), call.draw, call.request, s.committed);
            var t := Next(provider, s, if outcome.Success? then CommitCall(client) else Rollback(client));
            && t.committed == after && t.log == s.log + [EventOf(call)]
            && SessionOf(t, client) == Answered(call, since, |s.log|, outcome)
            && (s.holder == Some(client) ==> t.holder.None?)
  {
    hide PlanOf, ApplyAll;
    var plan := PlanOf(EnvOf(provider, call.keyVersion), call.draw, call.request, s.committed);
    assert plan.statements[..|plan.statements|] == plan.statements;
  }

  /** Progress: a call begun on a free file, given its read, one write per statement and its commit or
      rollback, with any steps of other clients in between and no crash, is answered with exactly its
      outcome on the file it began on; the file then holds exactly its effects and is free again. */
  lemma UndisturbedCallsComplete(provider: Provider, actions: seq<Action>, i: nat, j: nat, client: nat, call: Call)
    requires i + 1 < j <= |actions| && actions[i] == Begin(client, call) && !LockFree(call.request)
    requires StateAt(provider, actions, i).holder.None? && SessionOf(StateAt(provider, actions, i), client).Idle?
    requires forall m | i <= m < j :: !actions[m].Crash?
    requires var start := StateAt(provider, actions, i).committed;
             var plan := PlanOf(EnvOf(provider, call.keyVersion), call.draw, call.request, start);
             && OwnSteps(actions, client, i + 1, j - 1) == Script(client, |plan.statements|)
             && actions[j - 1]
                == if Execute(EnvOf(provider, call.keyVersion), call.draw, call.request, start).1.Success? then
                     CommitCall(client)
                   else Rollback(client)
    ensures var start, s := StateAt(provider, actions, i), StateAt(provider, actions, j);
            var (after, outcome) :=
              Execute(EnvOf(provider, call.keyVersion), call.draw, call.request, start.committed);
            && s.committed == after && s.holder.None? && s.log != [] && s.log[|s.log| - 1] == EventOf(call)
            && SessionOf(s, client) == Answered(call, |start.log|, |s.log| - 1, outcome)
  {
    hide PlanOf, Next, Execute;
    CallsAdvance(provider, actions, i, j - 1, client, call);
    FinishStep(provider, StateAt(provider, actions, j - 1), client, call, |StateAt(provider, actions, i).log|);
  }

  /** A lock-free read is answered at once, whoever holds the lock, with its outcome on the file. */
  lemma LooksComplete(provider: Provider, s: State, client: nat, call: Call)
    requires SessionOf(s, client).Idle? && LockFree(call.request)
    ensures var t := Next(provider, s, Look(client, call));
            && t.committed == s.committed && t.log == s.log + [EventOf(call)]
            && SessionOf(t, client)
               == Answered(call, |s.log|, |s.log|,
                           Execute(EnvOf(provider, call.keyVersion), call.draw, call.request, s.committed).1)
  {
    hide PlanOf;
    LooksSerially(provider, s, call);
  }
}
