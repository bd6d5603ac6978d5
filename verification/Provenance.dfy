/** Where every version of every run comes from: the call that stored it. */
module Provenance {
  import opened Wrappers
  import opened Models
  import opened Crypto
  import opened Signing
  import opened StoreSpec
  import opened Vault
  import opened History
  import opened Runs
  import opened Refinement
  import opened Tables
  import opened Tally
  import opened AnyTables

  /** The call stored this version under the metadata it replied with: active, made now, with the id the
      call drew and the key it used. */
  ghost predicate StoredBy(env: Env, draw: Draw, request: Request, reply: Reply, version: Version)
  {
    var m := version.metadata;
    && m.status == Active && m.revokedAt.None? && m.versionId == draw.versionId && m.createdAt == draw.now
    && m.algorithm == ALGORITHM && m.keyVersion == env.master.version
    && m.keyFingerprint == env.primitives.fingerprint(env.master.key)
    && match request
       case Create(w, s, value, labels) =>
         reply == Stored(m) && version.value == value && m.workspaceId == w && m.secretId == s && m.labels == labels
       case Rotate(w, s, value, labels, _) =>
         reply == Stored(m) && version.value == value && m.workspaceId == w && m.secretId == s && m.labels == labels
       case Generate(w, s, _, _, intent, _, _, _, _) =>
         && reply.Generated? && !reply.key.replayed && reply.key.metadata == m
         && version.value == env.primitives.privatePem(draw.seed) && m.workspaceId == w && m.secretId == s
         && Label(m.labels, "intent") == Some(intent)
       case _ => false
  }

  /** A call that lengthens a secret's history appended the one version it stored. */
  ghost predicate AppendsOwn(env: Env, draw: Draw, request: Request, before: Vault, after: Vault, outcome: Outcome,
                             secret: SecretKey)
  {
    var vs, ws := Versions(before, secret), Versions(after, secret);
    |ws| > |vs| ==>
      |ws| == |vs| + 1 && outcome.Success? && StoredBy(env, draw, request, outcome.value, ws[|vs|])
  }

  lemma FamilyIntent(intent: string, purpose: string, issuer: string, keyId: string)
    ensures Label(FamilyLabels(intent, purpose, issuer, keyId), "intent") == Some(intent)
  {
    assert "intent"[0] == 'i' && "purpose"[0] == 'p' && "issuer"[1] == 's' && "intent"[1] == 'n' && "key_id"[0] == 'k';
  }

  lemma GenerateAppendsOwn(env: Env, draw: Draw, request: Request, v: Vault, secret: SecretKey)
    requires request.Generate?
    ensures var (after, outcome) := Perform(env, draw, request, v);
            AppendsOwn(env, draw, request, v, after, outcome, secret)
  {
    hide FamilyLabels, LabelsClean, IntentFor, Label, DelegationKeyId;
    var keyId := DelegationKeyId(env.primitives, env.primitives.publicPem(draw.seed));
    FamilyIntent(request.intent, request.purpose, request.issuer, keyId);
  }

  lemma RevokeAppendsNone(env: Env, draw: Draw, request: Request, v: Vault, secret: SecretKey)
    requires request.RevokeVersion? || request.RevokeSecret?
    ensures |Versions(Perform(env, draw, request, v).0, secret)| == |Versions(v, secret)|
  {
    hide Label, IndexOf, Tables.VersionRevocationRecorded;
  }

  lemma PerformAppendsOwn(env: Env, draw: Draw, request: Request, v: Vault, secret: SecretKey)
    ensures var (after, outcome) := Perform(env, draw, request, v);
            AppendsOwn(env, draw, request, v, after, outcome, secret)
  {
    hide LabelsClean, Label, IndexOf, GenerateKey, RevokeOne, RevokeWhole;
    if request.Generate? {
      GenerateAppendsOwn(env, draw, request, v, secret);
    } else if request.RevokeVersion? || request.RevokeSecret? {
      RevokeAppendsNone(env, draw, request, v, secret);
    }
  }

  /** Event `j` is the successful call that stored this version. */
  ghost predicate StoredAt(provider: Provider, events: seq<Event>, j: nat, version: Version)
    requires j < |events|
  {
    && events[j].Called? && OutcomeAt(provider, events, j).Success?
    && StoredBy(EnvOf(provider, events[j].keyVersion), events[j].draw, events[j].request,
                OutcomeAt(provider, events, j).value, version)
  }

  /** Event `j` stored the version that `version` is, or is the revoked form of. */
  ghost predicate OriginAt(provider: Provider, events: seq<Event>, j: nat, original: Version, version: Version)
    requires j < |events|
  {
    StoredAt(provider, events, j, original) && VersionFollows(original, version)
  }

  lemma FollowsTransitive(a: Version, b: Version, c: Version)
    requires VersionFollows(a, b) && VersionFollows(b, c)
    ensures VersionFollows(a, c)
  {
  }

  /** Every version in every reachable state was stored by an earlier call and since then at most revoked. */
  lemma {:induction false} EveryVersionHasAnOrigin(provider: Provider, events: seq<Event>, n: nat, secret: SecretKey,
                                                   i: nat)
    requires Lawful(provider.primitives) && n <= |events| && i < |Versions(VaultAt(provider, events, n), secret)|
    ensures exists j: nat, original :: j < n
              && OriginAt(provider, events, j, original, Versions(VaultAt(provider, events, n), secret)[i])
  {
    hide VaultStep, Step, VaultHolds, StoredBy;
    if n == 0 {
    } else {
      var v, w, e := VaultAt(provider, events, n - 1), VaultAt(provider, events, n), events[n - 1];
      VaultAlwaysHolds(provider, events, n - 1);
      StepKeeps(provider, e, v);
      StepAppendsOwn(provider, e, v, secret);
      OutcomeRefines(provider, events, n - 1);
      if i < |Versions(v, secret)| {
        EveryVersionHasAnOrigin(provider, events, n - 1, secret, i);
        var j: nat, original :| j < n - 1 && OriginAt(provider, events, j, original, Versions(v, secret)[i]);
        assert HistoryGrows(v.secrets[secret], w.secrets[secret]);
        FollowsTransitive(original, Versions(v, secret)[i], Versions(w, secret)[i]);
        assert OriginAt(provider, events, j, original, Versions(w, secret)[i]);
      } else {
        var version := Versions(w, secret)[i];
        assert OriginAt(provider, events, n - 1, version, version);
      }
    }
  }

  lemma StepAppendsOwn(provider: Provider, e: Event, v: Vault, secret: SecretKey)
    ensures var (after, outcome) := VaultStep(provider, e, v);
            if e.Called? then AppendsOwn(EnvOf(provider, e.keyVersion), e.draw, e.request, v, after, outcome, secret)
            else after == v
  {
    hide AppendsOwn, Perform;
    if e.Called? {
      PerformAppendsOwn(EnvOf(provider, e.keyVersion), e.draw, e.request, v, secret);
    }
  }

  /** What a resolving call returns is an active version of the vault. */
  lemma ResolvedIsVersion(env: Env, draw: Draw, request: Request, v: Vault)
    requires request.Resolve? || request.ResolveForUse?
    requires Perform(env, draw, request, v).1.Success?
    ensures var reply := Perform(env, draw, request, v).1.value;
            && reply.Resolved? && reply.metadata.status == Active
            && (request.ResolveForUse? ==> Label(reply.metadata.labels, "intent") == Some(request.intent))
            && var vs := Versions(v, SecretKey(request.workspaceId, request.secretId));
            exists i: nat :: i < |vs| && vs[i] == Version(reply.metadata, reply.value)
  {
    hide IndexOf, Label, Select;
    var vs := Versions(v, SecretKey(request.workspaceId, request.secretId));
    if request.Resolve? {
      assert vs[Select(vs, request.version).value] == vs[Select(vs, request.version).value];
    } else {
      var at := CorrelationKey(request.workspaceId, request.correlationId);
      var i :=
        if at in v.book.pins then IndexOf(vs, v.book.pins[at].versionId).value else Select(vs, request.version).value;
      assert vs[i] == Version(vs[i].metadata, vs[i].value);
    }
  }

  /** A resolved pair was stored by an earlier call under exactly the metadata it comes back with. */
  lemma ResolvedWasStored(provider: Provider, events: seq<Event>, n: nat)
    requires Lawful(provider.primitives) && n < |events| && events[n].Called?
    requires events[n].request.Resolve? || events[n].request.ResolveForUse?
    requires OutcomeAt(provider, events, n).Success?
    ensures var reply := OutcomeAt(provider, events, n).value;
            && reply.Resolved?
            && (events[n].request.ResolveForUse? ==>
                  Label(reply.metadata.labels, "intent") == Some(events[n].request.intent))
            && reply.metadata.workspaceId == events[n].request.workspaceId
            && exists j: nat :: j < n && StoredAt(provider, events, j, Version(reply.metadata, reply.value))
  {
    hide StoredBy, Perform, VaultHolds, TablesAt, Label;
    var e, v := events[n], VaultAt(provider, events, n);
    var secret := SecretKey(e.request.workspaceId, e.request.secretId);
    OutcomeRefines(provider, events, n);
    ResolvedIsVersion(EnvOf(provider, e.keyVersion), e.draw, e.request, v);
    var reply := OutcomeAt(provider, events, n).value;
    var i: nat :| i < |Versions(v, secret)| && Versions(v, secret)[i] == Version(reply.metadata, reply.value);
    VaultAlwaysHolds(provider, events, n);
    VaultHasSecrets(provider.primitives, provider.key, v);
    VersionOf(provider.primitives, provider.key, v, secret, i);
    EveryVersionHasAnOrigin(provider, events, n, secret, i);
    var j: nat, original :| j < n && OriginAt(provider, events, j, original, Versions(v, secret)[i]);
    assert original == Version(reply.metadata, reply.value);
  }

  // ----- Rows -------------------------------------------------------------------------------

  /** A generation that finds its correlation recorded replies as replayed. */
  lemma RecordedIsReplayed(env: Env, draw: Draw, request: Request, db: Db)
    requires request.Generate? && CorrelationKey(request.workspaceId, request.correlationId) in db.book.generations
    requires Execute(env, draw, request, db).1.Success?
    ensures var reply := Execute(env, draw, request, db).1.value; reply.Generated? && reply.key.replayed
  {
    hide ReadGeneration, IntentFor, ApplyAll;
    var at := CorrelationKey(request.workspaceId, request.correlationId);
    RereadIsReplayed(env, db.versions, at, db.book.generations[at], request.intent);
  }

  /** The call that stores a version inserts its row. */
  lemma StoringInserts(env: Env, draw: Draw, request: Request, db: Db, version: Version)
    requires Execute(env, draw, request, db).1.Success?
    requires StoredBy(env, draw, request, Execute(env, draw, request, db).1.value, version)
    ensures KeyOf(version.metadata) !in db.versions
    ensures KeyOf(version.metadata) in Execute(env, draw, request, db).0.versions
  {
    hide Execute, HoldsSealed, Label;
    if request.Generate? {
      if CorrelationKey(request.workspaceId, request.correlationId) in db.book.generations {
        RecordedIsReplayed(env, draw, request, db);
      }
      FirstGenerationAddsThreeRows(env, draw, request, db);
    } else {
      WriteAddsOneRow(env, draw, request, db);
    }
  }

  lemma RowSince(provider: Provider, events: seq<Event>, j: nat, n: nat, version: Version)
    requires Lawful(provider.primitives) && j < n <= |events| && StoredAt(provider, events, j, version)
    ensures KeyOf(version.metadata) !in TablesAt(provider, events, j).versions
    ensures KeyOf(version.metadata) in TablesAt(provider, events, n).versions
  {
    hide Execute, StoredBy, RowFollows;
    var e := events[j];
    StoringInserts(EnvOf(provider, e.keyVersion), e.draw, e.request, TablesAt(provider, events, j), version);
    HistoryIsAppendOnly(provider, events, j + 1, n, "");
  }

  /** No two calls of a run store a version under the same key. */
  lemma StoredOnce(provider: Provider, events: seq<Event>, i: nat, j: nat, a: Version, b: Version)
    requires Lawful(provider.primitives) && i < |events| && j < |events|
    requires StoredAt(provider, events, i, a) && StoredAt(provider, events, j, b)
    requires KeyOf(a.metadata) == KeyOf(b.metadata)
    ensures i == j && a == b
  {
    hide OutcomeAt, TablesAt, Label;
    if i < j {
      RowSince(provider, events, i, j, a);
      RowSince(provider, events, j, |events|, b);
    } else if j < i {
      RowSince(provider, events, j, i, b);
      RowSince(provider, events, i, |events|, a);
    }
  }

  /** The row holds the stored value: its metadata is the original or its revoked form, and it decrypts
      to the original bytes. */
  ghost predicate RowHolds(env: Env, k: VersionKey, row: VersionRow, original: Version)
  {
    var m := MetadataFromRow(k, row);
    && KeyOf(original.metadata) == k && m.Some? && MetadataFollows(original.metadata, m.value)
    && DecryptRow(env, k, row) == Success(original.value)
  }

  /** Every row of every reachable state holds what the one create, rotate or generate call that
      inserted it stored. */
  lemma EveryRowHoldsWhatWasStored(provider: Provider, events: seq<Event>, n: nat, k: VersionKey, keyVersion: string)
    requires Lawful(provider.primitives) && n <= |events| && k in TablesAt(provider, events, n).versions
    ensures exists j: nat, original :: j < n && StoredAt(provider, events, j, original)
              && RowHolds(EnvOf(provider, keyVersion), k, TablesAt(provider, events, n).versions[k], original)
  {
    hide TablesAt, VaultAt, VaultHolds, SecretsHold, Represents, MetadataFromRow, DecryptRow, StoredAt, IndexOf;
    var env, db, v := EnvOf(provider, keyVersion), TablesAt(provider, events, n), VaultAt(provider, events, n);
    RunRefines(provider, events, n);
    VaultAlwaysHolds(provider, events, n);
    VaultHasSecrets(provider.primitives, provider.key, v);
    RowIsVersion(env, db, v, k);
    var i := db.versions[k].versionNumber - 1;
    VersionReads(env, db, v, SecretOf(k), i);
    EveryVersionHasAnOrigin(provider, events, n, SecretOf(k), i);
    var version := Versions(v, SecretOf(k))[i];
    var j: nat, original :| j < n && OriginAt(provider, events, j, original, version);
    assert MetadataFollows(original.metadata, version.metadata);
    assert RowHolds(env, k, db.versions[k], original);
  }
}
