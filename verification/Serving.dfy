/** Handlers that are let alone do what their methods do: the steps of the interleaved handlers, one
    request after another, are exactly the requests in one piece. */
module Serving {
  import opened Wrappers
  import opened Models
  import opened Tables
  import opened StoreSpec
  import opened Runs
  import opened Api
  import opened Handlers
  import Service

  ghost function After(app: App, provider: Provider, w: World, actions: seq<Action>): World
    decreases |actions|
  {
    if |actions| == 0 then w else After(app, provider, Next(app, provider, w, actions[0]), actions[1..])
  }

  /** Steps of one client, and none of any other. */
  ghost predicate Own(actions: seq<Action>, client: nat)
  {
    forall a | a in actions :: !a.Crash? && a.client == client
  }

  lemma AfterOne(app: App, provider: Provider, w: World, first: Action, rest: seq<Action>)
    ensures After(app, provider, w, [first] + rest) == After(app, provider, Next(app, provider, w, first), rest)
  {
    hide Next;
    assert ([first] + rest)[1..] == rest;
  }

  /** One request has ended: its response is the last answer, and no other handler has moved. */
  ghost predicate Answers(before: World, after: World, client: nat, db: Db, response: Response)
  {
    && after.db == db && SessionOf(after, client).Idle?
    && |after.answers| == |before.answers| + 1 && before.answers <= after.answers
    && after.answers[|before.answers|].response == response
    && forall d: nat | d != client :: SessionOf(after, d) == SessionOf(before, d)
  }

  lemma AnswersLater(before: World, next: World, after: World, client: nat, db: Db, response: Response)
    requires Answers(next, after, client, db, response)
    requires next.answers == before.answers
    requires forall d: nat | d != client :: SessionOf(next, d) == SessionOf(before, d)
    ensures Answers(before, after, client, db, response)
  {
  }

  lemma RespondsAlone(app: App, provider: Provider, w: World, client: nat)
    requires SessionOf(w, client).Finished?
    ensures Answers(w, After(app, provider, w, [Respond(client)]), client, w.db, SessionOf(w, client).response)
  {
    AfterOne(app, provider, w, Respond(client), []);
    assert [Respond(client)] + [] == [Respond(client)];
  }

  /** From the record at `i` on: the appends, and then the response. */
  lemma {:induction false} ConcludesAlone(app: App, provider: Provider, w: World, client: nat, keyVersion: string,
                                          luck: Service.Luck, drafts: seq<AuditRecord>, i: nat, response: Response,
                                          row: Option<string>, origin: Origin)
    returns (actions: seq<Action>)
    requires i <= |drafts| && SessionOf(w, client) == Proceed(drafts[i..], response, row, origin)
    ensures Own(actions, client)
    ensures var (db, ok) := Service.AppendedFrom(EnvOf(provider, keyVersion), luck, drafts, i, w.db);
            Answers(w, After(app, provider, w, actions), client, db, if ok then response else AUDIT_UNAVAILABLE)
    decreases |drafts| - i
  {
    hide Execute, Admit, Continue, Answers, After;
    if i == |drafts| {
      actions := [Respond(client)];
      RespondsAlone(app, provider, w, client);
    } else {
      var env := EnvOf(provider, keyVersion);
      var step := if luck.appends(i) then Append(client, keyVersion, luck.draws(i)) else AppendFails(client);
      var next := Next(app, provider, w, step);
      assert drafts[i..][0] == drafts[i] && drafts[i..][1..] == drafts[i + 1..];
      var row := drafts[i].(occurredAt := luck.draws(i).auditedAt);
      var rest;
      if !luck.appends(i) || Execute(env, luck.draws(i), AppendAudit(row), w.db).1.Failure? {
        rest := [Respond(client)];
        RespondsAlone(app, provider, next, client);
      } else {
        rest := ConcludesAlone(app, provider, next, client, keyVersion, luck, drafts, i + 1, response,
                               Some(luck.draws(i).eventId), origin);
      }
      actions := [step] + rest;
      AfterOne(app, provider, w, step, rest);
      var (db, ok) := Service.AppendedFrom(env, luck, drafts, i, w.db);
      AnswersLater(w, next, After(app, provider, next, rest), client, db, if ok then response else AUDIT_UNAVAILABLE);
    }
  }

  /** The state after one request whose handler no other interrupts: its tables and its response are those
      of the request in one piece, whatever the tables and the other handlers hold. */
  lemma ServedAlone(app: App, provider: Provider, w: World, client: nat, keyVersion: string, luck: Service.Luck,
                    authorization: Option<string>, route: Route)
    returns (actions: seq<Action>)
    requires SessionOf(w, client).Idle?
    ensures Own(actions, client)
    ensures var (db, response) := Service.Handled(app, EnvOf(provider, keyVersion), luck, authorization, route, w.db);
            Answers(w, After(app, provider, w, actions), client, db, response)
  {
    hide Execute, Admit, Continue, Answers;
    var env := EnvOf(provider, keyVersion);
    var arrive := Arrive(client, authorization, route);
    var arrived := Next(app, provider, w, arrive);
    var rest;
    match Admit(app, authorization, route)
    case Refuse(drafts, response) =>
      assert drafts[0..] == drafts;
      rest := ConcludesAlone(app, provider, arrived, client, keyVersion, luck, drafts, 0, response, None, NoCall);
      actions := [arrive] + rest;
      AfterOne(app, provider, w, arrive, rest);
      var (db, answer) := Service.Handled(app, env, luck, authorization, route, w.db);
      AnswersLater(w, arrived, After(app, provider, arrived, rest), client, db, answer);
    case CallStore(credential, request) =>
      var failed := Execute(env, luck.draw, request, w.db).1.Success? && !luck.commits && !request.ReadMetadata?;
      var call := if failed then StoreFails(client, false) else Store(client, keyVersion, luck.draw);
      var called := Next(app, provider, arrived, call);
      var c := Continue(app, route, credential, Service.Called(env, luck, request, w.db).1);
      assert c.drafts[0..] == c.drafts;
      rest := ConcludesAlone(app, provider, called, client, keyVersion, luck, c.drafts, 0, c.response, None,
                             CallBy(credential, |w.events|));
      actions := [arrive] + ([call] + rest);
      AfterOne(app, provider, w, arrive, [call] + rest);
      AfterOne(app, provider, arrived, call, rest);
      var (db, answer) := Service.Handled(app, env, luck, authorization, route, w.db);
      AnswersLater(w, called, After(app, provider, called, rest), client, db, answer);
  }
}
