/** What every call keeps: the vault's invariant, and a history that only grows. */
module History {
  import opened Wrappers
  import opened Models
  import opened Crypto
  import opened Signing
  import opened StoreSpec
  import opened Vault
  import Tables

  // ----- Growth -----------------------------------------------------------------------------

  /** A version later on: unchanged, or revoked once from active; never anything else. */
  predicate VersionFollows(before: Version, after: Version)
  {
    && after.value == before.value
    && (after.metadata == before.metadata
        || (before.metadata.status == Active && after.metadata.revokedAt.Some?
            && after.metadata == AsRevoked(before.metadata, after.metadata.revokedAt.value)))
  }

  ghost predicate HistoryGrows(before: seq<Version>, after: seq<Version>)
  {
    |before| <= |after| && forall i | 0 <= i < |before| :: VersionFollows(before[i], after[i])
  }

  ghost predicate Kept<K, V>(before: map<K, V>, after: map<K, V>)
  {
    forall k | k in before :: k in after && after[k] == before[k]
  }

  /** No version, pin, generation, revocation or audit row is ever dropped or rewritten. */
  ghost predicate Grows(before: Vault, after: Vault)
  {
    && (forall secret | secret in before.secrets ::
          secret in after.secrets && HistoryGrows(before.secrets[secret], after.secrets[secret]))
    && Kept(before.book.pins, after.book.pins)
    && Kept(before.book.generations, after.book.generations)
    && Kept(before.book.revocations, after.book.revocations)
    && Kept(before.book.audit, after.book.audit)
  }

  lemma GrowsTransitive(a: Vault, b: Vault, c: Vault)
    requires Grows(a, b) && Grows(b, c)
    ensures Grows(a, c)
  {
    forall secret | secret in a.secrets
      ensures secret in c.secrets && HistoryGrows(a.secrets[secret], c.secrets[secret])
    {
      var x, y, z := a.secrets[secret], b.secrets[secret], c.secrets[secret];
      assert HistoryGrows(x, y) && HistoryGrows(y, z);
      forall i | 0 <= i < |x| ensures VersionFollows(x[i], z[i]) {
        assert VersionFollows(x[i], y[i]) && VersionFollows(y[i], z[i]);
      }
    }
  }

  // ----- Sequences of versions --------------------------------------------------------------

  lemma {:induction false} IndexOfAppended(vs: seq<Version>, version: Version, id: string)
    ensures IndexOf(vs + [version], id)
            == if version.metadata.versionId == id then Some(|vs|) else IndexOf(vs, id)
  {
    assert (vs + [version])[..|vs|] == vs;
  }

  lemma {:induction false} IndexOfSameIds(vs: seq<Version>, ws: seq<Version>, id: string)
    requires |vs| == |ws| && forall i | 0 <= i < |vs| :: vs[i].metadata.versionId == ws[i].metadata.versionId
    ensures IndexOf(vs, id) == IndexOf(ws, id)
  {
    if vs != [] {
      IndexOfSameIds(vs[..|vs| - 1], ws[..|ws| - 1], id);
    }
  }

  lemma {:induction false} IndexOfGrows(vs: seq<Version>, ws: seq<Version>, id: string)
    requires HistoryGrows(vs, ws) && IndexOf(vs, id).Some?
    requires forall i: nat | i < |ws| :: IndexOf(ws, ws[i].metadata.versionId) == Some(i)
    ensures IndexOf(ws, id) == IndexOf(vs, id)
  {
    var i := IndexOf(vs, id).value;
    assert VersionFollows(vs[i], ws[i]);
    assert ws[i].metadata.versionId == id;
  }

  ghost predicate FitsAt(p: Primitives, key: Bytes, secret: SecretKey, m: Metadata, number: int)
  {
    && m.workspaceId == secret.workspaceId && m.secretId == secret.secretId && m.versionNumber == number
    && m.algorithm == ALGORITHM && m.keyFingerprint == p.fingerprint(key)
    && m.status == Active && m.revokedAt.None?
  }

  lemma HoldsAt(p: Primitives, key: Bytes, secret: SecretKey, vs: seq<Version>, i: nat)
    requires SecretHolds(p, key, secret, vs) && i < |vs|
    ensures VersionHolds(p, key, secret, vs, i)
  {
  }

  lemma AppendHoldsAt(p: Primitives, key: Bytes, secret: SecretKey, vs: seq<Version>, version: Version, i: nat)
    requires vs == [] || SecretHolds(p, key, secret, vs)
    requires IndexOf(vs, version.metadata.versionId).None?
    requires FitsAt(p, key, secret, version.metadata, |vs| + 1)
    requires i <= |vs|
    ensures VersionHolds(p, key, secret, vs + [version], i)
  {
    hide IndexOf, SecretHolds;
    if i == |vs| {
      IndexOfAppended(vs, version, version.metadata.versionId);
    } else {
      assert VersionHolds(p, key, secret, vs, i) by { HoldsAt(p, key, secret, vs, i); }
      IndexOfAppended(vs, version, vs[i].metadata.versionId);
      assert (vs + [version])[i] == vs[i];
    }
  }

  lemma AppendHolds(p: Primitives, key: Bytes, secret: SecretKey, vs: seq<Version>, version: Version)
    requires vs == [] || SecretHolds(p, key, secret, vs)
    requires IndexOf(vs, version.metadata.versionId).None?
    requires FitsAt(p, key, secret, version.metadata, |vs| + 1)
    ensures SecretHolds(p, key, secret, vs + [version])
    ensures HistoryGrows(vs, vs + [version])
  {
    forall i: nat | i < |vs + [version]| ensures VersionHolds(p, key, secret, vs + [version], i) {
      AppendHoldsAt(p, key, secret, vs, version, i);
    }
  }

  /** Any subset of a secret's versions may be revoked in place. */
  lemma RevokingHolds(p: Primitives, key: Bytes, secret: SecretKey, vs: seq<Version>, ws: seq<Version>, now: string)
    requires SecretHolds(p, key, secret, vs)
    requires |ws| == |vs| && forall i | 0 <= i < |vs| :: ws[i] == vs[i] || ws[i] == RevokedVersion(vs[i], now)
    ensures SecretHolds(p, key, secret, ws) && HistoryGrows(vs, ws)
  {
    forall i: nat | i < |ws| ensures VersionHolds(p, key, secret, ws, i) {
      assert VersionHolds(p, key, secret, vs, i);
      IndexOfSameIds(vs, ws, vs[i].metadata.versionId);
    }
  }

  // ----- Records survive growth -------------------------------------------------------------

  ghost predicate SecretsHold(p: Primitives, key: Bytes, v: Vault)
  {
    forall secret | secret in v.secrets :: SecretHolds(p, key, secret, v.secrets[secret])
  }

  lemma VaultHasSecrets(p: Primitives, key: Bytes, v: Vault)
    requires VaultHolds(p, key, v)
    ensures SecretsHold(p, key, v)
  {
  }

  lemma VaultHasPin(p: Primitives, key: Bytes, v: Vault, at: CorrelationKey)
    requires VaultHolds(p, key, v) && at in v.book.pins
    ensures PinHolds(v, at, v.book.pins[at])
  {
  }

  lemma VaultHasGeneration(p: Primitives, key: Bytes, v: Vault, at: CorrelationKey)
    requires VaultHolds(p, key, v) && at in v.book.generations
    ensures GenerationHolds(p, v, at, v.book.generations[at]) && Tables.GenerationsUnique(v.book.generations)
  {
  }

  lemma VaultHasRevocation(p: Primitives, key: Bytes, v: Vault, at: CorrelationKey)
    requires VaultHolds(p, key, v) && at in v.book.revocations
    ensures RevocationHolds(v, at, v.book.revocations[at]) && Tables.RevocationsUnique(v.book.revocations)
  {
  }

  /** Version `i` of a secret in place, read off the invariant. */
  lemma VersionOf(p: Primitives, key: Bytes, v: Vault, secret: SecretKey, i: nat)
    requires SecretsHold(p, key, v) && i < |Versions(v, secret)|
    ensures VersionHolds(p, key, secret, Versions(v, secret), i)
  {
    assert SecretHolds(p, key, secret, v.secrets[secret]);
  }

  lemma StoredSecretHasVersions(p: Primitives, key: Bytes, v: Vault, secret: SecretKey)
    requires SecretsHold(p, key, v) && secret in v.secrets
    ensures Versions(v, secret) != []
  {
    assert SecretHolds(p, key, secret, v.secrets[secret]);
  }

  lemma PinSurvives(p: Primitives, key: Bytes, before: Vault, after: Vault, at: CorrelationKey, pin: Pin)
    requires Grows(before, after) && SecretsHold(p, key, after) && PinHolds(before, at, pin)
    ensures PinHolds(after, at, pin)
  {
    var secret := SecretKey(at.workspaceId, pin.secretId);
    var vs, ws := before.secrets[secret], after.secrets[secret];
    assert SecretHolds(p, key, secret, ws);
    forall i: nat | i < |ws| ensures IndexOf(ws, ws[i].metadata.versionId) == Some(i) {
      assert VersionHolds(p, key, secret, ws, i);
    }
    IndexOfGrows(vs, ws, pin.versionId);
    var i := IndexOf(vs, pin.versionId).value;
    assert VersionFollows(vs[i], ws[i]);
  }

  lemma GenerationSurvives(p: Primitives, before: Vault, after: Vault, at: CorrelationKey, g: Generation)
    requires Grows(before, after) && GenerationHolds(p, before, at, g)
    ensures GenerationHolds(p, after, at, g)
  {
    var secret := SecretKey(at.workspaceId, g.secretId);
    assert HistoryGrows(before.secrets[secret], after.secrets[secret]);
    assert VersionFollows(before.secrets[secret][0], after.secrets[secret][0]);
  }

  lemma RevocationSurvives(before: Vault, after: Vault, at: CorrelationKey, r: Revocation)
    requires Grows(before, after) && RevocationHolds(before, at, r)
    ensures RevocationHolds(after, at, r)
  {
    var secret := SecretKey(at.workspaceId, r.secretId);
    assert HistoryGrows(before.secrets[secret], after.secrets[secret]);
    assert VersionFollows(before.secrets[secret][r.versionNumber - 1], after.secrets[secret][r.versionNumber - 1]);
  }

  /** Growth keeps every old record; a call has only its new records to justify. */
  lemma BookSurvives(p: Primitives, key: Bytes, before: Vault, after: Vault)
    requires VaultHolds(p, key, before) && Grows(before, after) && SecretsHold(p, key, after)
    requires forall at | at in after.book.pins && at !in before.book.pins :: PinHolds(after, at, after.book.pins[at])
    requires forall at | at in after.book.generations && at !in before.book.generations ::
               GenerationHolds(p, after, at, after.book.generations[at])
    requires forall at | at in after.book.revocations && at !in before.book.revocations ::
               RevocationHolds(after, at, after.book.revocations[at])
    requires Tables.GenerationsUnique(after.book.generations) && Tables.RevocationsUnique(after.book.revocations)
    ensures VaultHolds(p, key, after)
  {
    forall at | at in after.book.pins ensures PinHolds(after, at, after.book.pins[at]) {
      if at in before.book.pins { PinSurvives(p, key, before, after, at, before.book.pins[at]); }
    }
    forall at | at in after.book.generations ensures GenerationHolds(p, after, at, after.book.generations[at]) {
      if at in before.book.generations { GenerationSurvives(p, before, after, at, before.book.generations[at]); }
    }
    forall at | at in after.book.revocations ensures RevocationHolds(after, at, after.book.revocations[at]) {
      if at in before.book.revocations { RevocationSurvives(before, after, at, before.book.revocations[at]); }
    }
  }

  lemma GrowsReflexive(v: Vault)
    ensures Grows(v, v)
  {
    forall secret | secret in v.secrets ensures HistoryGrows(v.secrets[secret], v.secrets[secret]) {
      assert forall i | 0 <= i < |v.secrets[secret]| :: VersionFollows(v.secrets[secret][i], v.secrets[secret][i]);
    }
  }

  /** Replacing one secret's history by a longer one grows the vault. */
  lemma GrowsAt(before: Vault, after: Vault, secret: SecretKey)
    requires after.secrets.Keys == before.secrets.Keys + {secret}
    requires forall other | other in before.secrets && other != secret :: after.secrets[other] == before.secrets[other]
    requires HistoryGrows(Versions(before, secret), after.secrets[secret])
    requires Kept(before.book.pins, after.book.pins) && Kept(before.book.generations, after.book.generations)
    requires Kept(before.book.revocations, after.book.revocations) && Kept(before.book.audit, after.book.audit)
    ensures Grows(before, after)
  {
    forall other | other in before.secrets && other != secret
      ensures HistoryGrows(before.secrets[other], after.secrets[other])
    {
      assert forall i | 0 <= i < |before.secrets[other]| ::
          VersionFollows(before.secrets[other][i], before.secrets[other][i]);
    }
  }

  // ----- One call ---------------------------------------------------------------------------

  lemma ExtendedKeeps(p: Primitives, key: Bytes, v: Vault, secret: SecretKey, version: Version)
    requires VaultHolds(p, key, v)
    requires FitsAt(p, key, secret, version.metadata, |Versions(v, secret)| + 1)
    requires IndexOf(Versions(v, secret), version.metadata.versionId).None?
    ensures VaultHolds(p, key, Extended(v, secret, version)) && Grows(v, Extended(v, secret, version))
  {
    var after := Extended(v, secret, version);
    AppendHolds(p, key, secret, Versions(v, secret), version);
    GrowsAt(v, after, secret);
    BookSurvives(p, key, v, after);
  }

  lemma GrowsBook(before: Vault, after: Vault)
    requires after.secrets == before.secrets
    requires Kept(before.book.pins, after.book.pins) && Kept(before.book.generations, after.book.generations)
    requires Kept(before.book.revocations, after.book.revocations) && Kept(before.book.audit, after.book.audit)
    ensures Grows(before, after)
  {
    GrowsReflexive(before);
  }

  lemma PinRecordedKeeps(p: Primitives, key: Bytes, before: Vault, after: Vault, at: CorrelationKey, pin: Pin)
    requires VaultHolds(p, key, before) && at !in before.book.pins
    requires after == before.(book := before.book.(pins := before.book.pins[at := pin]))
    requires PinHolds(after, at, pin)
    ensures VaultHolds(p, key, after) && Grows(before, after)
  {
    hide PinHolds, GenerationHolds, RevocationHolds, SecretHolds, Grows;
    GrowsBook(before, after);
    BookSurvives(p, key, before, after);
  }

  lemma GenerationRecordedKeeps(p: Primitives, key: Bytes, before: Vault, after: Vault, at: CorrelationKey,
                                g: Generation)
    requires VaultHolds(p, key, before) && at !in before.book.generations
    requires after == before.(book := before.book.(generations := before.book.generations[at := g]))
    requires GenerationHolds(p, after, at, g)
    requires !Tables.SecretGenerated(before.book.generations, at.workspaceId, g.secretId)
    ensures VaultHolds(p, key, after) && Grows(before, after)
  {
    hide PinHolds, GenerationHolds, RevocationHolds, SecretHolds, Grows;
    GrowsBook(before, after);
    BookSurvives(p, key, before, after);
  }

  lemma RevocationRecordedKeeps(p: Primitives, key: Bytes, before: Vault, after: Vault, at: CorrelationKey,
                                r: Revocation)
    requires VaultHolds(p, key, before) && at !in before.book.revocations
    requires after == before.(book := before.book.(revocations := before.book.revocations[at := r]))
    requires RevocationHolds(after, at, r)
    requires !Tables.VersionRevocationRecorded(before.book.revocations, at.workspaceId, r.secretId, r.versionId)
    ensures VaultHolds(p, key, after) && Grows(before, after)
  {
    hide PinHolds, GenerationHolds, RevocationHolds, SecretHolds, Grows;
    GrowsBook(before, after);
    BookSurvives(p, key, before, after);
  }

  lemma AuditedKeeps(p: Primitives, key: Bytes, before: Vault, after: Vault, draw: Draw, record: AuditRecord,
                     reply: Reply)
    requires VaultHolds(p, key, before) && VaultHolds(p, key, after) && Grows(before, after)
    ensures var (result, _) := Audited(before, after, draw, record, reply);
            VaultHolds(p, key, result) && Grows(before, result)
  {
    GrowsReflexive(before);
    if draw.eventId !in after.book.audit {
      var result := Audited(before, after, draw, record, reply).0;
      GrowsReflexive(after);
      assert Grows(after, result);
      BookSurvives(p, key, after, result);
      GrowsTransitive(before, after, result);
    }
  }

  lemma RevokingKeeps(p: Primitives, key: Bytes, v: Vault, secret: SecretKey, ws: seq<Version>, now: string)
    requires VaultHolds(p, key, v) && secret in v.secrets
    requires var vs := v.secrets[secret];
             |ws| == |vs| && forall i | 0 <= i < |vs| :: ws[i] == vs[i] || ws[i] == RevokedVersion(vs[i], now)
    ensures var after := v.(secrets := v.secrets[secret := ws]); VaultHolds(p, key, after) && Grows(v, after)
  {
    var after := v.(secrets := v.secrets[secret := ws]);
    RevokingHolds(p, key, secret, v.secrets[secret], ws, now);
    GrowsAt(v, after, secret);
    BookSurvives(p, key, v, after);
  }

  lemma RetiringKeeps(p: Primitives, key: Bytes, v: Vault, secret: SecretKey, i: nat, at: CorrelationKey,
                      callerSubject: string, now: string)
    requires VaultHolds(p, key, v) && i < |Versions(v, secret)|
    requires Versions(v, secret)[i].metadata.status == Active
    requires at.workspaceId == secret.workspaceId && at !in v.book.revocations
    requires !Tables.VersionRevocationRecorded(v.book.revocations, secret.workspaceId, secret.secretId,
                                               Versions(v, secret)[i].metadata.versionId)
    ensures var after := VersionRetired(v, secret, i, at, callerSubject, now);
            VaultHolds(p, key, after) && Grows(v, after)
  {
    hide VaultHolds, Grows, Tables.VersionRevocationRecorded;
    var vs := v.secrets[secret];
    var ws := vs[i := RevokedVersion(vs[i], now)];
    var revoked := v.(secrets := v.secrets[secret := ws]);
    var after := VersionRetired(v, secret, i, at, callerSubject, now);
    RevokingKeeps(p, key, v, secret, ws, now);
    RevocationRecordedKeeps(p, key, revoked, after, at, after.book.revocations[at]);
    GrowsTransitive(v, revoked, after);
  }

  lemma RevokeOneKeeps(env: Env, draw: Draw, v: Vault, secret: SecretKey, versionId: string, versionNumber: int,
                       callerSubject: string, correlationId: string, providerId: string)
    requires VaultHolds(env.primitives, env.master.key, v)
    ensures var (after, _) := RevokeOne(draw, v, secret, versionId, versionNumber, callerSubject, correlationId,
                                        providerId);
            VaultHolds(env.primitives, env.master.key, after) && Grows(v, after)
  {
    hide VaultHolds, Grows, IndexOf, VersionRetired, Tables.VersionRevocationRecorded, Label;
    var p, key := env.primitives, env.master.key;
    var at := CorrelationKey(secret.workspaceId, correlationId);
    var (after, outcome) := RevokeOne(draw, v, secret, versionId, versionNumber, callerSubject, correlationId,
                                      providerId);
    GrowsReflexive(v);
    if outcome.Success? {
      if at in v.book.revocations {
        AuditedKeeps(p, key, v, v, draw, after.book.audit[draw.eventId], outcome.value);
      } else {
        var i := IndexOf(Versions(v, secret), versionId).value;
        RetiringKeeps(p, key, v, secret, i, at, callerSubject, draw.now);
        AuditedKeeps(p, key, v, VersionRetired(v, secret, i, at, callerSubject, draw.now), draw,
                     after.book.audit[draw.eventId], outcome.value);
      }
    }
  }

  lemma ResolvePinnedKeeps(env: Env, draw: Draw, v: Vault, secret: SecretKey, intent: string, callerSubject: string,
                           correlationId: string, version: Option<string>)
    requires VaultHolds(env.primitives, env.master.key, v)
    ensures var (after, _) := ResolvePinned(draw, v, secret, intent, callerSubject, correlationId, version);
            VaultHolds(env.primitives, env.master.key, after) && Grows(v, after)
  {
    hide VaultHolds, SecretsHold, Grows, Select, Label;
    var p, key := env.primitives, env.master.key;
    var after := ResolvePinned(draw, v, secret, intent, callerSubject, correlationId, version).0;
    GrowsReflexive(v);
    if after != v {
      var i := Select(Versions(v, secret), version).value;
      VaultHasSecrets(p, key, v);
      VersionOf(p, key, v, secret, i);
      var at := CorrelationKey(secret.workspaceId, correlationId);
      PinRecordedKeeps(p, key, v, after, at, after.book.pins[at]);
    }
  }

  lemma GeneratedMaterialMatches(p: Primitives, seed: Bytes)
    requires Lawful(p)
    ensures var pem := p.publicPem(seed);
            MaterialMatches(p, p.privatePem(seed), pem, DelegationKeyId(p, pem))
            && |pem| <= MAX_PUBLIC_PEM_CHARS && |DelegationKeyId(p, pem)| == 72
  {
  }

  lemma NoGenerationWithoutSecret(p: Primitives, v: Vault, secret: SecretKey)
    requires BookHolds(p, v) && secret !in v.secrets
    ensures !Tables.SecretGenerated(v.book.generations, secret.workspaceId, secret.secretId)
  {
    forall at | at in v.book.generations && at.workspaceId == secret.workspaceId
      ensures v.book.generations[at].secretId != secret.secretId
    {
      assert GenerationHolds(p, v, at, v.book.generations[at]);
    }
  }

  lemma NewGenerationHolds(env: Env, draw: Draw, v: Vault, secret: SecretKey, secretReference: string, purpose: string,
                           intent: string, issuer: string, callerSubject: string, at: CorrelationKey)
    requires Lawful(env.primitives) && IntentFor(purpose) == Some(intent)
    requires secret !in v.secrets && at.workspaceId == secret.workspaceId
    ensures var m := GeneratedMetadata(env, draw, secret, purpose, intent, issuer);
            var g := GenerationOf(env, draw, secret, secretReference, purpose, issuer, callerSubject);
            GenerationHolds(env.primitives, KeyStored(env, draw, v, secret, m, at, g), at, g)
  {
    GeneratedMaterialMatches(env.primitives, draw.seed);
    var m := GeneratedMetadata(env, draw, secret, purpose, intent, issuer);
    var g := GenerationOf(env, draw, secret, secretReference, purpose, issuer, callerSubject);
    var after := KeyStored(env, draw, v, secret, m, at, g);
    assert Versions(after, secret) == [Version(m, env.primitives.privatePem(draw.seed))];
  }

  lemma KeyStoredKeeps(env: Env, draw: Draw, v: Vault, secret: SecretKey, secretReference: string, purpose: string,
                       intent: string, issuer: string, callerSubject: string, at: CorrelationKey)
    requires Lawful(env.primitives) && VaultHolds(env.primitives, env.master.key, v)
    requires IntentFor(purpose) == Some(intent) && secret !in v.secrets
    requires at.workspaceId == secret.workspaceId && at !in v.book.generations
    ensures var m := GeneratedMetadata(env, draw, secret, purpose, intent, issuer);
            var g := GenerationOf(env, draw, secret, secretReference, purpose, issuer, callerSubject);
            var after := KeyStored(env, draw, v, secret, m, at, g);
            VaultHolds(env.primitives, env.master.key, after) && Grows(v, after)
  {
    var p, key := env.primitives, env.master.key;
    var m := GeneratedMetadata(env, draw, secret, purpose, intent, issuer);
    var g := GenerationOf(env, draw, secret, secretReference, purpose, issuer, callerSubject);
    var version := Version(m, p.privatePem(draw.seed));
    var stored := Extended(v, secret, version);
    var after := KeyStored(env, draw, v, secret, m, at, g);
    ExtendedKeeps(p, key, v, secret, version);
    NewGenerationHolds(env, draw, v, secret, secretReference, purpose, intent, issuer, callerSubject, at);
    NoGenerationWithoutSecret(p, v, secret);
    GenerationRecordedKeeps(p, key, stored, after, at, g);
    GrowsTransitive(v, stored, after);
  }

  lemma GenerateKeyKeeps(env: Env, draw: Draw, v: Vault, secret: SecretKey, secretReference: string, purpose: string,
                         intent: string, issuer: string, callerSubject: string, correlationId: string,
                         providerId: string)
    requires Lawful(env.primitives) && VaultHolds(env.primitives, env.master.key, v)
    ensures var (after, _) := GenerateKey(env, draw, v, secret, secretReference, purpose, intent, issuer, callerSubject,
                                          correlationId, providerId);
            VaultHolds(env.primitives, env.master.key, after) && Grows(v, after)
  {
    hide VaultHolds, SecretsHold, Grows, KeyStored, IntentFor, LabelsClean, GeneratedMetadata, GenerationOf;
    var p, key := env.primitives, env.master.key;
    var at := CorrelationKey(secret.workspaceId, correlationId);
    var (after, outcome) := GenerateKey(env, draw, v, secret, secretReference, purpose, intent, issuer, callerSubject,
                                        correlationId, providerId);
    GrowsReflexive(v);
    if outcome.Success? {
      if at in v.book.generations {
        AuditedKeeps(p, key, v, v, draw, after.book.audit[draw.eventId], outcome.value);
      } else {
        VaultHasSecrets(p, key, v);
        if secret in v.secrets { StoredSecretHasVersions(p, key, v, secret); }
        KeyStoredKeeps(env, draw, v, secret, secretReference, purpose, intent, issuer, callerSubject, at);
        var m := GeneratedMetadata(env, draw, secret, purpose, intent, issuer);
        var g := GenerationOf(env, draw, secret, secretReference, purpose, issuer, callerSubject);
        AuditedKeeps(p, key, v, KeyStored(env, draw, v, secret, m, at, g), draw, after.book.audit[draw.eventId],
                     outcome.value);
      }
    }
  }

  /** Every call keeps the invariant and only grows the history. */
  lemma PerformKeeps(env: Env, draw: Draw, request: Request, v: Vault)
    requires Lawful(env.primitives) && VaultHolds(env.primitives, env.master.key, v)
    ensures var (after, _) := Perform(env, draw, request, v);
            VaultHolds(env.primitives, env.master.key, after) && Grows(v, after)
  {
    hide VaultHolds, Grows, LabelsClean, GenerateKey, RevokeOne, ResolvePinned, Label;
    var p, key := env.primitives, env.master.key;
    GrowsReflexive(v);
    match request
    case Create(w, s, value, labels) =>
      if LabelsClean(labels) && SecretKey(w, s) !in v.secrets {
        ExtendedKeeps(p, key, v, SecretKey(w, s), Version(FreshMetadata(env, draw, w, s, labels, 1), value));
      }
    case Rotate(w, s, value, labels, expected) =>
      var vs := Versions(v, SecretKey(w, s));
      if Perform(env, draw, request, v).0 != v {
        var m := FreshMetadata(env, draw, w, s, labels, |vs| + 1);
        ExtendedKeeps(p, key, v, SecretKey(w, s), Version(m, value));
      }
    case RevokeSecret(w, s) =>
      var vs := Versions(v, SecretKey(w, s));
      if vs != [] {
        RevokingKeeps(p, key, v, SecretKey(w, s), AllRevoked(vs, draw.now), draw.now);
      }
    case RevokeVersion(w, s, id, number, caller, correlation, provider) =>
      RevokeOneKeeps(env, draw, v, SecretKey(w, s), id, number, caller, correlation, provider);
    case ResolveForUse(w, s, intent, caller, correlation, version) =>
      ResolvePinnedKeeps(env, draw, v, SecretKey(w, s), intent, caller, correlation, version);
    case Generate(w, s, reference, purpose, intent, issuer, caller, correlation, provider) =>
      GenerateKeyKeeps(env, draw, v, SecretKey(w, s), reference, purpose, intent, issuer, caller, correlation,
                       provider);
    case ReadMetadata(_, _, _) =>
    case Resolve(_, _, _) =>
    case AppendAudit(record) =>
      AuditedKeeps(p, key, v, v, draw, record, Appended);
  }
}
