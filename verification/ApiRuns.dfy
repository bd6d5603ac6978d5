/** What holds of runs whose store calls all come from the routes: one durable intent per secret,
    values released only with permission, and no store error a handler does not catch. */
module ApiRuns {
  import opened Wrappers
  import opened Models
  import opened Crypto
  import opened Signing
  import Tables
  import opened StoreSpec
  import opened Vault
  import opened History
  import opened Refinement
  import opened Runs
  import opened Provenance
  import opened Auth
  import opened Api

  /** The event is a store call whose caller is a declared credential vetted for it, an audit append, or
      a fault. */
  ghost predicate Issued(app: App, e: Event, caller: Option<Credential>)
  {
    e.Called? && !e.request.AppendAudit? ==>
      caller.Some? && caller.value in app.credentials && Vetted(e.request, caller.value)
  }

  /** Every event was issued by the caller recorded beside it. */
  ghost predicate AllIssued(app: App, events: seq<Event>, callers: seq<Option<Credential>>)
  {
    |callers| == |events| && forall i | 0 <= i < |events| :: Issued(app, events[i], callers[i])
  }

  // ----- One durable intent per secret ------------------------------------------------------

  function IntentOf(version: Version): Option<string>
  {
    Label(version.metadata.labels, "intent")
  }

  /** All versions of a secret carry the same allowed intent. */
  ghost predicate OneIntent(vs: seq<Version>)
  {
    forall i | 0 <= i < |vs| ::
      IntentOf(vs[i]).Some? && IntentAllowed(IntentOf(vs[i]).value) && IntentOf(vs[i]) == IntentOf(vs[0])
  }

  ghost predicate IntentsHold(v: Vault)
  {
    forall secret | secret in v.secrets :: OneIntent(v.secrets[secret])
  }

  lemma OneIntentAppended(vs: seq<Version>, version: Version)
    requires OneIntent(vs) && IntentOf(version).Some? && IntentAllowed(IntentOf(version).value)
    requires vs != [] ==> IntentOf(version) == IntentOf(vs[|vs| - 1])
    ensures OneIntent(vs + [version])
  {
    hide IntentAllowed, IntentOf;
    if vs != [] {
      assert IntentOf(vs[|vs| - 1]) == IntentOf(vs[0]);
    }
  }

  lemma OneIntentFollows(vs: seq<Version>, ws: seq<Version>)
    requires OneIntent(vs) && HistoryGrows(vs, ws) && |ws| == |vs|
    ensures OneIntent(ws)
  {
    hide IntentAllowed;
    forall i | 0 <= i < |ws| ensures IntentOf(ws[i]) == IntentOf(vs[i]) {
      assert VersionFollows(vs[i], ws[i]);
    }
  }

  /** A vetted call that appends a version appends one with the secret's intent. */
  lemma AppendedIntent(env: Env, draw: Draw, request: Request, v: Vault, secret: SecretKey, c: Credential)
    requires Vetted(request, c)
    requires |Versions(Perform(env, draw, request, v).0, secret)| > |Versions(v, secret)|
    ensures var vs, ws := Versions(v, secret), Versions(Perform(env, draw, request, v).0, secret);
            && |ws| == |vs| + 1 && ws[..|vs|] == vs && IntentOf(ws[|vs|]).Some?
               && IntentAllowed(IntentOf(ws[|vs|]).value)
            && (vs != [] ==> IntentOf(ws[|vs|]) == IntentOf(vs[|vs| - 1]))
  {
    hide IntentAllowed, Granted, LabelsClean, IntentFor, FamilyLabels, IndexOf, RevokeOne, DelegationKeyId;
    match request
    case Create(_, _, _, _) =>
    case Rotate(_, _, _, _, _) =>
    case Generate(_, _, _, purpose, intent, issuer, _, _, _) =>
      FamilyIntent(intent, purpose, issuer, DelegationKeyId(env.primitives, env.primitives.publicPem(draw.seed)));
    case RevokeVersion(_, _, _, _, _, _, _) => RevokeAppendsNone(env, draw, request, v, secret);
    case RevokeSecret(_, _) => RevokeAppendsNone(env, draw, request, v, secret);
    case _ =>
  }

  lemma StepKeepsIntents(app: App, provider: Provider, e: Event, caller: Option<Credential>, v: Vault)
    requires Lawful(provider.primitives) && VaultHolds(provider.primitives, provider.key, v)
    requires Issued(app, e, caller) && IntentsHold(v)
    ensures IntentsHold(VaultStep(provider, e, v).0)
  {
    hide VaultHolds, Vetted, Perform, OneIntent, HistoryGrows, AppendsOwn;
    var w := VaultStep(provider, e, v).0;
    StepKeeps(provider, e, v);
    forall secret | secret in w.secrets ensures OneIntent(w.secrets[secret]) {
      var vs, ws := Versions(v, secret), w.secrets[secret];
      OneIntentOfNone();
      if |ws| > |vs| {
        GrownByCall(provider, e, v, secret);
        AppendedIntent(EnvOf(provider, e.keyVersion), e.draw, e.request, v, secret, caller.value);
        assert ws == vs + [ws[|vs|]];
        OneIntentAppended(vs, ws[|vs|]);
      } else {
        SameLength(v, w, secret);
        OneIntentFollows(vs, ws);
      }
    }
  }

  lemma OneIntentOfNone()
    ensures OneIntent([])
  {
  }

  lemma GrownByCall(provider: Provider, e: Event, v: Vault, secret: SecretKey)
    requires |Versions(VaultStep(provider, e, v).0, secret)| > |Versions(v, secret)|
    ensures e.Called? && !e.request.AppendAudit?
  {
    hide CreateSecret, RotateSecret, GenerateKey, RevokeOne, RevokeWhole, ResolvePinned;
  }

  lemma SameLength(v: Vault, w: Vault, secret: SecretKey)
    requires Grows(v, w) && secret in w.secrets && |w.secrets[secret]| <= |Versions(v, secret)|
    ensures HistoryGrows(Versions(v, secret), w.secrets[secret]) && |w.secrets[secret]| == |Versions(v, secret)|
  {
    if secret in v.secrets {
      assert HistoryGrows(v.secrets[secret], w.secrets[secret]);
    }
  }

  lemma {:induction false} IntentsAlwaysHold(app: App, provider: Provider, events: seq<Event>,
                                             callers: seq<Option<Credential>>, n: nat)
    requires Lawful(provider.primitives) && n <= |events| && AllIssued(app, events, callers)
    ensures IntentsHold(VaultAt(provider, events, n))
  {
    hide IntentsHold, VaultStep, VaultHolds, Issued;
    if n == 0 {
      NoIntents();
    } else {
      IntentsAlwaysHold(app, provider, events, callers, n - 1);
      VaultAlwaysHolds(provider, events, n - 1);
      StepKeepsIntents(app, provider, events[n - 1], callers[n - 1], VaultAt(provider, events, n - 1));
    }
  }

  lemma NoIntents()
    ensures IntentsHold(EMPTY_VAULT)
  {
  }

  /** In every state the routes can reach, all rows of a secret carry one and the same allowed intent. */
  lemma OneDurableIntent(app: App, provider: Provider, events: seq<Event>, callers: seq<Option<Credential>>, n: nat,
                         a: VersionKey, b: VersionKey)
    requires Lawful(provider.primitives) && n <= |events| && AllIssued(app, events, callers)
    requires var versions := TablesAt(provider, events, n).versions;
             a in versions && b in versions && SecretOf(a) == SecretOf(b)
    ensures var versions := TablesAt(provider, events, n).versions;
            var x, y := MetadataFromRow(a, versions[a]), MetadataFromRow(b, versions[b]);
            && x.Some? && y.Some?
            && Label(x.value.labels, "intent") == Label(y.value.labels, "intent")
            && Label(x.value.labels, "intent").Some? && IntentAllowed(Label(x.value.labels, "intent").value)
  {
    hide VaultHolds, SecretsHold, Represents, MetadataFromRow, DecryptRow, IntentAllowed, TablesAt, VaultAt, IndexOf;
    var env, db, v := EnvOf(provider, ""), TablesAt(provider, events, n), VaultAt(provider, events, n);
    RunRefines(provider, events, n);
    VaultAlwaysHolds(provider, events, n);
    VaultHasSecrets(provider.primitives, provider.key, v);
    IntentsAlwaysHold(app, provider, events, callers, n);
    RowIsVersion(env, db, v, a);
    RowIsVersion(env, db, v, b);
    VersionReads(env, db, v, SecretOf(a), db.versions[a].versionNumber - 1);
    VersionReads(env, db, v, SecretOf(b), db.versions[b].versionNumber - 1);
    assert OneIntent(v.secrets[SecretOf(a)]);
  }

  // ----- Released values --------------------------------------------------------------------

  /** The action that stores a value through this kind of request. */
  function StoringAction(request: Request): string
  {
    if request.Create? then WRITE else if request.Rotate? then ROTATE else GENERATE
  }

  lemma VettedToStore(env: Env, draw: Draw, request: Request, reply: Reply, version: Version, c: Credential)
    requires Vetted(request, c) && StoredBy(env, draw, request, reply, version)
    ensures IntentOf(version).Some?
    ensures Granted(c.grants, StoringAction(request), version.metadata.workspaceId, IntentOf(version))
  {
    hide IntentAllowed, IntentFor, Granted;
  }

  /** Event `j` stored this version, and its own caller was granted that for the version's intent in its
      workspace. */
  ghost predicate StoredWithPermission(app: App, provider: Provider, events: seq<Event>,
                                       callers: seq<Option<Credential>>, j: nat, version: Version)
    requires |callers| == |events| && j < |events|
  {
    && StoredAt(provider, events, j, version)
    && callers[j].Some? && callers[j].value in app.credentials && IntentOf(version).Some?
    && Granted(callers[j].value.grants, StoringAction(events[j].request), version.metadata.workspaceId,
               IntentOf(version))
  }

  /** A value resolved for use goes to a caller that is itself granted `secret.resolve` for the version's
      intent in its workspace, and was stored, under exactly the metadata it comes back with, by an
      earlier call whose own caller was granted the write, rotation or generation for that intent. */
  lemma ReleasedWithPermission(app: App, provider: Provider, events: seq<Event>, callers: seq<Option<Credential>>,
                               n: nat)
    requires Lawful(provider.primitives) && n < |events| && AllIssued(app, events, callers)
    requires events[n].Called? && events[n].request.ResolveForUse? && OutcomeAt(provider, events, n).Success?
    ensures var reply := OutcomeAt(provider, events, n).value;
            && reply.Resolved?
            && var version := Version(reply.metadata, reply.value);
            && IntentOf(version) == Some(events[n].request.intent)
            && callers[n].Some? && callers[n].value in app.credentials
            && Granted(callers[n].value.grants, RESOLVE, version.metadata.workspaceId, IntentOf(version))
            && exists j: nat :: j < n && StoredWithPermission(app, provider, events, callers, j, version)
  {
    hide IntentAllowed, IntentFor, Granted, StoredBy, OutcomeAt;
    ResolvedWasStored(provider, events, n);
    var reply := OutcomeAt(provider, events, n).value;
    assert Issued(app, events[n], callers[n]);
    var version := Version(reply.metadata, reply.value);
    var j: nat :| j < n && StoredAt(provider, events, j, version);
    var env := EnvOf(provider, events[j].keyVersion);
    StoringIsNoAppend(env, events[j].draw, events[j].request, OutcomeAt(provider, events, j).value, version);
    assert Issued(app, events[j], callers[j]);
    VettedToStore(env, events[j].draw, events[j].request, OutcomeAt(provider, events, j).value, version,
                  callers[j].value);
    assert StoredWithPermission(app, provider, events, callers, j, version);
  }

  lemma StoringIsNoAppend(env: Env, draw: Draw, request: Request, reply: Reply, version: Version)
    requires StoredBy(env, draw, request, reply, version)
    ensures !request.AppendAudit?
  {
  }

  // ----- Handlers are exhaustive ------------------------------------------------------------

  /** The framework's bounds on a generation request. */
  predicate WithinBounds(route: Route)
  {
    route.GenerateRoute? ==> |route.purpose| <= 64
  }

  lemma FamilyLabelsCount(intent: string, purpose: string, issuer: string, keyId: string)
    ensures |FamilyLabels(intent, purpose, issuer, keyId)| <= 4
    ensures FamilyLabels(intent, purpose, issuer, keyId).Keys <= {"intent", "purpose", "issuer", "key_id"}
  {
    var m := FamilyLabels(intent, purpose, issuer, keyId);
    var names := {"intent", "purpose", "issuer", "key_id"};
    assert m.Keys <= names;
    SubsetSize(m.Keys, names);
    assert |m| == |m.Keys|;
  }

  lemma SubsetSize(a: set<string>, b: set<string>)
    requires a <= b
    ensures |a| <= |b|
  {
    assert b == a + (b - a);
    assert |b| == |a| + |b - a|;
  }

  lemma SigningIntentBounded(purpose: string)
    ensures IntentFor(purpose).Some? ==> |IntentFor(purpose).value| <= MAX_LABEL_VALUE_CHARS
  {
  }

  /** The four labels of a generated key are always within the label limits. */
  lemma FamilyLabelsClean(p: Primitives, intent: string, purpose: string, issuer: string, publicPem: string)
    requires Lawful(p) && IntentFor(purpose) == Some(intent) && |purpose| <= 64 && |issuer| <= 200
    ensures LabelsClean(FamilyLabels(intent, purpose, issuer, DelegationKeyId(p, publicPem)))
  {
    hide IntentFor;
    var labels := FamilyLabels(intent, purpose, issuer, DelegationKeyId(p, publicPem));
    FamilyLabelsCount(intent, purpose, issuer, DelegationKeyId(p, publicPem));
    SigningIntentBounded(purpose);
    forall k | k in labels ensures LabelBounded(k, labels[k]) {
      assert 0 < |k| <= MAX_LABEL_KEY_CHARS;
    }
  }

  /** A generation that a route admits never finds its metadata invalid. */
  lemma GenerateNeverInvalid(app: App, env: Env, draw: Draw, route: Route, client: Credential, v: Vault)
    requires Lawful(env.primitives) && route.GenerateRoute? && WithinBounds(route)
    requires AdmitClient(app, route, client).CallStore?
    ensures Perform(env, draw, AdmitClient(app, route, client).request, v).1 != Failure(MetadataInvalid)
  {
    hide IntentFor, FamilyLabels, LabelsClean, DelegationKeyId, Granted;
    var request := AdmitClient(app, route, client).request;
    FamilyLabelsClean(env.primitives, request.intent, request.purpose, request.issuer,
                      env.primitives.publicPem(draw.seed));
  }

  /** The errors each route's handler catches, of those its store call can raise. */
  lemma CaughtErrors(app: App, route: Route, client: Credential, e: Error)
    requires AdmitClient(app, route, client).CallStore?
    requires e in PossibleErrors(AdmitClient(app, route, client).request)
    requires route.GenerateRoute? ==> e != MetadataInvalid
    ensures Continue(app, route, client, Failure(e)).response != Crashed
  {
    hide IntentAllowed, Granted, IntentFor, CanonicalLabels, Label, IsIdentifier, Draft;
  }

  lemma AnsweredReply(app: App, route: Route, client: Credential, env: Env, draw: Draw, v: Vault)
    requires AdmitClient(app, route, client).CallStore?
    requires Perform(env, draw, AdmitClient(app, route, client).request, v).1.Success?
    ensures var outcome := Perform(env, draw, AdmitClient(app, route, client).request, v).1;
            Continue(app, route, client, outcome).response != Crashed
  {
    hide IntentAllowed, Granted, IntentFor, CanonicalLabels, IsIdentifier, Draft, LabelsClean, IndexOf, FamilyLabels,
         RevokedDrafts, Tables.VersionRevocationRecorded, Select, CallerOf, CorrelationOf;
  }

  /** Whatever ran before, no admitted request makes its handler fail with an uncaught store error. */
  lemma HandlersAreExhaustive(app: App, provider: Provider, events: seq<Event>, n: nat, route: Route,
                              client: Credential)
    requires Lawful(provider.primitives) && n < |events| && events[n].Called? && WithinBounds(route)
    requires AdmitClient(app, route, client).CallStore? && events[n].request == AdmitClient(app, route, client).request
    ensures Continue(app, route, client, OutcomeAt(provider, events, n)).response != Crashed
  {
    hide VaultHolds, Perform, Continue, AdmitClient, PossibleErrors, WithinBounds, TablesAt, VaultAt;
    var env := EnvOf(provider, events[n].keyVersion);
    OutcomeRefines(provider, events, n);
    VaultAlwaysHolds(provider, events, n);
    var outcome := OutcomeAt(provider, events, n);
    if outcome.Success? {
      AnsweredReply(app, route, client, env, events[n].draw, VaultAt(provider, events, n));
    } else {
      PerformErrors(env, events[n].draw, events[n].request, VaultAt(provider, events, n));
      if route.GenerateRoute? {
        GenerateNeverInvalid(app, env, events[n].draw, route, client, VaultAt(provider, events, n));
      }
      CaughtErrors(app, route, client, outcome.error);
    }
  }

  /** A rotation raises `SecretAlreadyExists` only when it drew a version id its secret already has. */
  lemma RotateCollides(provider: Provider, events: seq<Event>, n: nat)
    requires Lawful(provider.primitives) && n < |events| && events[n].Called? && events[n].request.Rotate?
    requires OutcomeAt(provider, events, n) == Failure(AlreadyExists)
    ensures VersionKey(events[n].request.workspaceId, events[n].request.secretId, events[n].draw.versionId)
            in TablesAt(provider, events, n).versions
  {
    hide VaultHolds, SecretsHold, Represents, LabelsClean, Label, TablesAt, VaultAt;
    var env, e := EnvOf(provider, events[n].keyVersion), events[n];
    var db, v := TablesAt(provider, events, n), VaultAt(provider, events, n);
    var secret := SecretKey(e.request.workspaceId, e.request.secretId);
    RunRefines(provider, events, n);
    VaultAlwaysHolds(provider, events, n);
    VaultHasSecrets(provider.primitives, provider.key, v);
    OutcomeRefines(provider, events, n);
    VersionPlaced(env, db, v, secret, IndexOf(Versions(v, secret), e.draw.versionId).value);
  }
}
