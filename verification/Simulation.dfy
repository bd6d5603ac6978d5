/** Every call on the tables has the same outcome as the same call on the vault, and the tables
    keep representing it: no constraint breaks, no row fails to decode or decrypt. */
module Simulation {
  import opened Wrappers
  import opened JsonObjects
  import opened Models
  import opened Crypto
  import opened Signing
  import opened Tables
  import opened StoreSpec
  import opened Vault
  import opened History
  import opened Refinement

  ghost predicate Matches(key: Bytes, concrete: (Db, Outcome), plain: (Vault, Outcome))
  {
    concrete.1 == plain.1 && Represents(key, concrete.0, plain.0)
  }

  /** The tables agree on everything but the book, which changes alike on both sides. */
  lemma SameBookChange(key: Bytes, db: Db, v: Vault, book: Book)
    requires Represents(key, db, v)
    ensures Represents(key, db.(book := book), v.(book := book))
  {
    var after, w := db.(book := book), v.(book := book);
    forall k | k in after.versions ensures RowNamed(after, w, k) {
      assert RowNamed(db, v, k);
    }
    forall s, i: nat | s in w.secrets && i < |w.secrets[s]| ensures RowStored(key, after, w.secrets[s][i]) {
      assert RowStored(key, db, v.secrets[s][i]);
    }
  }

  lemma SameBookOf(key: Bytes, db: Db, v: Vault)
    requires Represents(key, db, v)
    ensures db.book == v.book
  {
  }

  lemma AuditMatches(key: Bytes, db: Db, v: Vault, draw: Draw, record: AuditRecord, reply: Reply)
    requires Represents(key, db, v)
    ensures Matches(key, Commit(db, Plan([InsertAudit(draw.eventId, record)], Success(reply))),
                    Audited(v, v, draw, record, reply))
  {
    CommitOne(db, InsertAudit(draw.eventId, record), reply);
    SameBookChange(key, db, v, db.book.(audit := db.book.audit[draw.eventId := record]));
  }

  // ----- Create, rotate ---------------------------------------------------------------------

  lemma CreateMatches(env: Env, draw: Draw, db: Db, v: Vault, secret: SecretKey, value: Bytes, labels: Labels)
    requires VaultHolds(env.primitives, env.master.key, v) && Represents(env.master.key, db, v)
    ensures Matches(env.master.key,
                    Commit(db, CreatePlan(env, draw, secret.workspaceId, secret.secretId, value, labels)),
                    CreateSecret(env, draw, v, secret, value, labels))
  {
    VaultHasSecrets(env.primitives, env.master.key, v);
    var m := FreshMetadata(env, draw, secret.workspaceId, secret.secretId, labels, 1);
    if LabelsClean(labels) {
      CommitOne(db, InsertOf(env, draw, m, value), Stored(m));
      if secret in v.secrets {
        assert SecretHolds(env.primitives, env.master.key, secret, v.secrets[secret]);
        FirstNumberTaken(env, draw, db, v, secret, m, value);
      } else {
        InsertMatches(env, draw, db, v, secret, m, value);
      }
    }
  }

  lemma LatestReads(env: Env, db: Db, v: Vault, secret: SecretKey)
    requires SecretsHold(env.primitives, env.master.key, v) && Represents(env.master.key, db, v)
    ensures var vs, latest := Versions(v, secret), LatestRow(db.versions, secret);
            if vs == [] then latest.None?
            else
              latest.Some? && latest.value in db.versions
              && MetadataFromRow(latest.value, db.versions[latest.value]) == Some(vs[|vs| - 1].metadata)
              && vs[|vs| - 1].metadata.versionNumber == |vs|
  {
    var vs := Versions(v, secret);
    LatestMatches(env, db, v, secret);
    if vs != [] {
      VersionReads(env, db, v, secret, |vs| - 1);
      assert SecretHolds(env.primitives, env.master.key, secret, vs);
      assert VersionHolds(env.primitives, env.master.key, secret, vs, |vs| - 1);
    }
  }

  lemma RotateMatches(env: Env, draw: Draw, db: Db, v: Vault, secret: SecretKey, value: Bytes, labels: Labels,
                      expectedIntent: Option<string>)
    requires VaultHolds(env.primitives, env.master.key, v) && Represents(env.master.key, db, v)
    ensures Matches(env.master.key,
                    Commit(db, RotatePlan(env, draw, db.versions, secret.workspaceId, secret.secretId, value, labels,
                                          expectedIntent)),
                    RotateSecret(env, draw, v, secret, value, labels, expectedIntent))
  {
    hide VaultHolds, SecretsHold, Represents, MetadataFromRow, LatestRow, Apply, LabelsClean, InsertOf, Label;
    VaultHasSecrets(env.primitives, env.master.key, v);
    var vs := Versions(v, secret);
    LatestReads(env, db, v, secret);
    var plan := RotatePlan(env, draw, db.versions, secret.workspaceId, secret.secretId, value, labels, expectedIntent);
    if plan.outcome.Failure? {
      CommitNone(db, plan.outcome);
    } else {
      var m := FreshMetadata(env, draw, secret.workspaceId, secret.secretId, labels, |vs| + 1);
      assert plan == Plan([InsertOf(env, draw, m, value)], Success(Stored(m)));
      CommitOne(db, InsertOf(env, draw, m, value), Stored(m));
      InsertMatches(env, draw, db, v, secret, m, value);
    }
  }

  // ----- Reads ------------------------------------------------------------------------------

  lemma ReadsMatch(env: Env, draw: Draw, request: Request, db: Db, v: Vault)
    requires request.ReadMetadata? || request.Resolve?
    requires VaultHolds(env.primitives, env.master.key, v) && Represents(env.master.key, db, v)
    ensures Matches(env.master.key, Execute(env, draw, request, db), Perform(env, draw, request, v))
  {
    VaultHasSecrets(env.primitives, env.master.key, v);
    var secret := SecretKey(request.workspaceId, request.secretId);
    SelectMatches(env, db, v, secret, request.version);
    var i := Select(Versions(v, secret), request.version);
    if i.Some? {
      VersionReads(env, db, v, secret, i.value);
    }
  }

  // ----- Resolve for use --------------------------------------------------------------------

  lemma UseMatches(env: Env, db: Db, v: Vault, secret: SecretKey, i: nat, intent: string)
    requires SecretsHold(env.primitives, env.master.key, v) && Represents(env.master.key, db, v)
    requires i < |Versions(v, secret)|
    ensures var version := Versions(v, secret)[i];
            ReadForUse(env, db.versions, KeyOf(version.metadata), intent) == UseOf(version, intent)
  {
    VersionReads(env, db, v, secret, i);
  }

  lemma PinMatches(env: Env, db: Db, v: Vault, secret: SecretKey, i: nat, at: CorrelationKey, pin: Pin, reply: Reply)
    requires SecretsHold(env.primitives, env.master.key, v) && Represents(env.master.key, db, v)
    requires i < |Versions(v, secret)| && at !in v.book.pins && at.workspaceId == secret.workspaceId
    requires pin.secretId == secret.secretId && pin.versionId == Versions(v, secret)[i].metadata.versionId
    ensures Matches(env.master.key, Commit(db, Plan([InsertPin(at, pin)], Success(reply))),
                    (v.(book := v.book.(pins := v.book.pins[at := pin])), Success(reply)))
  {
    VersionPlaced(env, db, v, secret, i);
    CommitOne(db, InsertPin(at, pin), reply);
    SameBookChange(env.master.key, db, v, db.book.(pins := db.book.pins[at := pin]));
  }

  lemma ResolveForUseMatches(env: Env, draw: Draw, db: Db, v: Vault, secret: SecretKey, intent: string,
                             callerSubject: string, correlationId: string, version: Option<string>)
    requires VaultHolds(env.primitives, env.master.key, v) && Represents(env.master.key, db, v)
    ensures Matches(env.master.key,
                    Commit(db, ResolveForUsePlan(env, draw, db.versions, db.book.pins, secret.workspaceId,
                                                 secret.secretId, intent, callerSubject, correlationId, version)),
                    ResolvePinned(draw, v, secret, intent, callerSubject, correlationId, version))
  {
    hide VaultHolds, SecretsHold, Represents, MetadataFromRow, ReadForUse, Select, SelectRow, IndexOf, Label, Commit;
    VaultHasSecrets(env.primitives, env.master.key, v);
    SameBookOf(env.master.key, db, v);
    var at := CorrelationKey(secret.workspaceId, correlationId);
    var vs := Versions(v, secret);
    if at in v.book.pins {
      var pin := v.book.pins[at];
      VaultHasPin(env.primitives, env.master.key, v, at);
      CommitNone(db, Failure(ResolutionConflict));
      if pin.secretId == secret.secretId {
        var i := IndexOf(vs, pin.versionId).value;
        VersionPlaced(env, db, v, secret, i);
        UseMatches(env, db, v, secret, i, intent);
        CommitNone(db, UseOf(vs[i], intent));
      }
    } else {
      SelectMatches(env, db, v, secret, version);
      var i := Select(vs, version);
      CommitNone(db, Failure(Missing));
      if i.Some? {
        CommitNone(db, UseOf(vs[i.value], intent));
        VersionPlaced(env, db, v, secret, i.value);
        VersionReads(env, db, v, secret, i.value);
        UseMatches(env, db, v, secret, i.value, intent);
        var use := UseOf(vs[i.value], intent);
        if use.Success? {
          var pin := Pin(secret.secretId, intent, callerSubject, vs[i.value].metadata.versionId, draw.now);
          PinMatches(env, db, v, secret, i.value, at, pin, use.value);
        }
      }
    }
  }

  // ----- Revoke whole secret ----------------------------------------------------------------

  ghost predicate NamesTail(vs: seq<Version>, i: nat, rows: set<VersionKey>)
  {
    i <= |vs| && forall k :: k in rows <==> exists j :: i <= j < |vs| && k == KeyOf(vs[j].metadata)
  }

  function KeysFrom(vs: seq<Version>, i: nat): seq<VersionKey>
    requires i <= |vs|
  {
    seq(|vs| - i, j requires 0 <= j < |vs| - i => KeyOf(vs[i + j].metadata))
  }

  lemma FirstOfTail(env: Env, db: Db, v: Vault, secret: SecretKey, i: nat, rows: set<VersionKey>, k: VersionKey)
    requires SecretsHold(env.primitives, env.master.key, v) && Represents(env.master.key, db, v)
    requires i < |Versions(v, secret)| && NamesTail(Versions(v, secret), i, rows)
    requires forall r :: r in rows ==> r in db.versions
    ensures IsFirst(db.versions, rows, k) <==> k == KeyOf(Versions(v, secret)[i].metadata)
  {
    var vs := Versions(v, secret);
    var first := KeyOf(vs[i].metadata);
    assert first in rows;
    VersionPlaced(env, db, v, secret, i);
    forall r | r in rows && r != first ensures db.versions[r].versionNumber > i + 1 {
      var j :| i <= j < |vs| && r == KeyOf(vs[j].metadata);
      VersionPlaced(env, db, v, secret, j);
    }
  }

  lemma TailShrinks(env: Env, db: Db, v: Vault, secret: SecretKey, i: nat, rows: set<VersionKey>)
    requires SecretsHold(env.primitives, env.master.key, v) && Represents(env.master.key, db, v)
    requires i < |Versions(v, secret)| && NamesTail(Versions(v, secret), i, rows)
    ensures NamesTail(Versions(v, secret), i + 1, rows - {KeyOf(Versions(v, secret)[i].metadata)})
  {
    var vs := Versions(v, secret);
    forall j | i < j < |vs| ensures KeyOf(vs[j].metadata) != KeyOf(vs[i].metadata) {
      OtherKey(env, db, v, secret, i, secret, j);
    }
  }

  lemma AscendingStep(env: Env, db: Db, v: Vault, secret: SecretKey, i: nat, rows: set<VersionKey>)
    requires SecretsHold(env.primitives, env.master.key, v) && Represents(env.master.key, db, v)
    requires i < |Versions(v, secret)| && NamesTail(Versions(v, secret), i, rows)
    requires forall r :: r in rows ==> r in db.versions
    ensures var first := KeyOf(Versions(v, secret)[i].metadata);
            Ascending(db.versions, rows) == [first] + Ascending(db.versions, rows - {first})
  {
    var first := KeyOf(Versions(v, secret)[i].metadata);
    assert first in rows;
    forall k ensures IsFirst(db.versions, rows, k) <==> k == first {
      FirstOfTail(env, db, v, secret, i, rows, k);
    }
  }

  lemma KeysFromStep(vs: seq<Version>, i: nat)
    requires i < |vs|
    ensures KeysFrom(vs, i) == [KeyOf(vs[i].metadata)] + KeysFrom(vs, i + 1)
  {
  }

  lemma NamesNothing(vs: seq<Version>, rows: set<VersionKey>)
    requires NamesTail(vs, |vs|, rows)
    ensures rows == {} && KeysFrom(vs, |vs|) == []
  {
  }

  lemma AscendingNothing(versions: map<VersionKey, VersionRow>)
    ensures Ascending(versions, {}) == []
  {
  }

  lemma TailIsStored(db: Db, vs: seq<Version>, i: nat, rows: set<VersionKey>)
    requires i < |vs| && NamesTail(vs, i, rows) && forall r :: r in rows ==> r in db.versions
    ensures forall r :: r in rows - {KeyOf(vs[i].metadata)} ==> r in db.versions
  {
  }

  /** The rows of a secret in version order are its versions in order. */
  lemma {:induction false} AscendingFrom(env: Env, db: Db, v: Vault, secret: SecretKey, i: nat, rows: set<VersionKey>)
    requires SecretsHold(env.primitives, env.master.key, v) && Represents(env.master.key, db, v)
    requires i <= |Versions(v, secret)| && NamesTail(Versions(v, secret), i, rows)
    requires forall r :: r in rows ==> r in db.versions
    ensures Ascending(db.versions, rows) == KeysFrom(Versions(v, secret), i)
    decreases |Versions(v, secret)| - i
  {
    hide SecretsHold, Represents, Ascending, KeysFrom, NamesTail;
    var vs := Versions(v, secret);
    if i == |vs| {
      NamesNothing(vs, rows);
      AscendingNothing(db.versions);
    } else {
      AscendingStep(env, db, v, secret, i, rows);
      TailShrinks(env, db, v, secret, i, rows);
      TailIsStored(db, vs, i, rows);
      AscendingFrom(env, db, v, secret, i + 1, rows - {KeyOf(vs[i].metadata)});
      KeysFromStep(vs, i);
    }
  }

  lemma AllRowsMatch(env: Env, db: Db, v: Vault, secret: SecretKey)
    requires SecretsHold(env.primitives, env.master.key, v) && Represents(env.master.key, db, v)
    ensures Ascending(db.versions, RowsOf(db.versions, secret)) == KeysFrom(Versions(v, secret), 0)
  {
    var vs, rows := Versions(v, secret), RowsOf(db.versions, secret);
    forall k ensures k in rows <==> exists j :: 0 <= j < |vs| && k == KeyOf(vs[j].metadata) {
      if k in rows {
        RowIsVersion(env, db, v, k);
      }
      if j :| 0 <= j < |vs| && k == KeyOf(vs[j].metadata) {
        VersionPlaced(env, db, v, secret, j);
      }
    }
    AscendingFrom(env, db, v, secret, 0, rows);
  }

  /** The vault when the loop has revoked the first `i` versions. */
  function RevokedUpTo(v: Vault, secret: SecretKey, i: nat, now: string): Vault
    requires i <= |Versions(v, secret)| && secret in v.secrets
  {
    var vs := Versions(v, secret);
    v.(secrets := v.secrets[secret := AllRevoked(vs[..i], now) + vs[i..]])
  }

  lemma RevokedOneMore(p: Primitives, key: Bytes, v: Vault, secret: SecretKey, i: nat, now: string)
    requires SecretsHold(p, key, v) && secret in v.secrets && i < |Versions(v, secret)|
    ensures SecretsHold(p, key, RevokedUpTo(v, secret, i, now))
    ensures Versions(RevokedUpTo(v, secret, i, now), secret)[i] == Versions(v, secret)[i]
    ensures Versions(v, secret)[i].metadata.status == Revoked ==>
              RevokedUpTo(v, secret, i + 1, now) == RevokedUpTo(v, secret, i, now)
    ensures Versions(v, secret)[i].metadata.status == Active ==>
              RevokedUpTo(v, secret, i + 1, now) == RevokedAt(RevokedUpTo(v, secret, i, now), secret, i, now)
  {
    var vs := v.secrets[secret];
    var ws := AllRevoked(vs[..i], now) + vs[i..];
    RevokingHolds(p, key, secret, vs, ws, now);
    assert AllRevoked(vs[..i + 1], now) + vs[i + 1..] == ws[i := RevokedVersion(vs[i], now)];
    if vs[i].metadata.status == Revoked {
      assert ws[i := vs[i]] == ws;
    }
  }

  lemma LoopSkips(env: Env, draw: Draw, versions: map<VersionKey, VersionRow>, ks: seq<VersionKey>, i: nat, m: Metadata)
    requires i < |ks| && forall k :: k in ks ==> k in versions
    requires MetadataFromRow(ks[i], versions[ks[i]]) == Some(m) && m.status == Revoked
    ensures var loop, tail := RevokeRows(env, draw, versions, ks, i), RevokeRows(env, draw, versions, ks, i + 1);
            loop.statements == tail.statements
            && (tail.outcome.Success? ==> loop.outcome == Success([m] + tail.outcome.value))
  {
  }

  lemma LoopRevokes(env: Env, draw: Draw, versions: map<VersionKey, VersionRow>, ks: seq<VersionKey>, i: nat,
                    m: Metadata, value: Bytes)
    requires i < |ks| && forall k :: k in ks ==> k in versions
    requires MetadataFromRow(ks[i], versions[ks[i]]) == Some(m) && m.status == Active
    requires DecryptRow(env, ks[i], versions[ks[i]]) == Success(value)
    ensures var loop, tail := RevokeRows(env, draw, versions, ks, i), RevokeRows(env, draw, versions, ks, i + 1);
            loop.statements == [RevokeUpdate(env, m, draw.nonce(i), value, draw.now)] + tail.statements
            && (tail.outcome.Success? ==> loop.outcome == Success([AsRevoked(m, draw.now)] + tail.outcome.value))
  {
  }

  lemma ApplyFirst(db: Db, s: Statement, tail: seq<Statement>)
    requires Apply(db, s).Success?
    ensures ApplyAll(db, [s] + tail) == ApplyAll(Apply(db, s).value, tail)
  {
    assert ([s] + tail)[1..] == tail;
  }

  lemma RevokedTail(vs: seq<Version>, now: string, i: nat)
    requires i <= |vs|
    ensures i == |vs| ==> MetadataOf(AllRevoked(vs, now)[i..]) == []
    ensures i < |vs| ==>
              MetadataOf(AllRevoked(vs, now)[i..])
              == [RevokedVersion(vs[i], now).metadata] + MetadataOf(AllRevoked(vs, now)[i + 1..])
  {
  }

  /** From row `i` on every statement of the loop applies, and it reports the revoked metadata in order. */
  ghost predicate LoopDone(env: Env, draw: Draw, db: Db, current: Db, v: Vault, secret: SecretKey, i: nat)
    requires i <= |Versions(v, secret)| && secret in v.secrets
    requires forall k :: k in KeysFrom(Versions(v, secret), 0) ==> k in db.versions
  {
    var vs := Versions(v, secret);
    var loop := RevokeRows(env, draw, db.versions, KeysFrom(vs, 0), i);
    var r := ApplyAll(current, loop.statements);
    && loop.outcome == Success(MetadataOf(AllRevoked(vs, draw.now)[i..]))
    && r.Success? && Represents(env.master.key, r.value, RevokedUpTo(v, secret, |vs|, draw.now))
  }

  lemma LoopDoneSkipping(env: Env, draw: Draw, db: Db, current: Db, v: Vault, secret: SecretKey, i: nat)
    requires SecretsHold(env.primitives, env.master.key, v) && Represents(env.master.key, db, v)
    requires i < |Versions(v, secret)| && Versions(v, secret)[i].metadata.status == Revoked
    requires forall k :: k in KeysFrom(Versions(v, secret), 0) ==> k in db.versions
    requires LoopDone(env, draw, db, current, v, secret, i + 1)
    ensures LoopDone(env, draw, db, current, v, secret, i)
  {
    hide Represents, DecryptRow, MetadataFromRow;
    var vs := Versions(v, secret);
    VersionReads(env, db, v, secret, i);
    LoopSkips(env, draw, db.versions, KeysFrom(vs, 0), i, vs[i].metadata);
    RevokedTail(vs, draw.now, i);
  }

  lemma LoopDoneRevoking(env: Env, draw: Draw, db: Db, current: Db, next: Db, v: Vault, secret: SecretKey, i: nat)
    requires SecretsHold(env.primitives, env.master.key, v) && Represents(env.master.key, db, v)
    requires i < |Versions(v, secret)| && Versions(v, secret)[i].metadata.status == Active
    requires forall k :: k in KeysFrom(Versions(v, secret), 0) ==> k in db.versions
    requires var version := Versions(v, secret)[i];
             Apply(current, RevokeUpdate(env, version.metadata, draw.nonce(i), version.value, draw.now))
             == Success(next)
    requires LoopDone(env, draw, db, next, v, secret, i + 1)
    ensures LoopDone(env, draw, db, current, v, secret, i)
  {
    hide Represents, DecryptRow, MetadataFromRow, Apply, RevokeUpdate;
    var vs := Versions(v, secret);
    VersionReads(env, db, v, secret, i);
    LoopRevokes(env, draw, db.versions, KeysFrom(vs, 0), i, vs[i].metadata, vs[i].value);
    ApplyFirst(current, RevokeUpdate(env, vs[i].metadata, draw.nonce(i), vs[i].value, draw.now),
               RevokeRows(env, draw, db.versions, KeysFrom(vs, 0), i + 1).statements);
    RevokedTail(vs, draw.now, i);
  }

  lemma LoopDoneAtEnd(env: Env, draw: Draw, db: Db, current: Db, v: Vault, secret: SecretKey)
    requires secret in v.secrets && forall k :: k in KeysFrom(Versions(v, secret), 0) ==> k in db.versions
    requires Represents(env.master.key, current, RevokedUpTo(v, secret, |v.secrets[secret]|, draw.now))
    ensures LoopDone(env, draw, db, current, v, secret, |v.secrets[secret]|)
  {
    hide Represents;
    RevokedTail(v.secrets[secret], draw.now, |v.secrets[secret]|);
  }

  lemma {:induction false} RevokeLoopMatches(env: Env, draw: Draw, db: Db, current: Db, v: Vault, secret: SecretKey,
                                             i: nat)
    requires SecretsHold(env.primitives, env.master.key, v) && Represents(env.master.key, db, v)
    requires secret in v.secrets && i <= |Versions(v, secret)|
    requires forall k :: k in KeysFrom(Versions(v, secret), 0) ==> k in db.versions
    requires Represents(env.master.key, current, RevokedUpTo(v, secret, i, draw.now))
    ensures LoopDone(env, draw, db, current, v, secret, i)
    decreases |Versions(v, secret)| - i
  {
    hide LoopDone, Represents, SecretsHold, Apply, RevokeUpdate;
    var vs := Versions(v, secret);
    if i == |vs| {
      LoopDoneAtEnd(env, draw, db, current, v, secret);
    } else {
      RevokedOneMore(env.primitives, env.master.key, v, secret, i, draw.now);
      if vs[i].metadata.status == Revoked {
        RevokeLoopMatches(env, draw, db, current, v, secret, i + 1);
        LoopDoneSkipping(env, draw, db, current, v, secret, i);
      } else {
        UpdateMatches(env, current, RevokedUpTo(v, secret, i, draw.now), secret, i, draw.nonce(i), draw.now);
        var next := Apply(current, RevokeUpdate(env, vs[i].metadata, draw.nonce(i), vs[i].value, draw.now)).value;
        RevokeLoopMatches(env, draw, db, next, v, secret, i + 1);
        LoopDoneRevoking(env, draw, db, current, next, v, secret, i);
      }
    }
  }

  lemma RevokedUpToEnds(v: Vault, secret: SecretKey, now: string)
    requires secret in v.secrets
    ensures RevokedUpTo(v, secret, 0, now) == v
    ensures RevokedUpTo(v, secret, |v.secrets[secret]|, now)
            == v.(secrets := v.secrets[secret := AllRevoked(v.secrets[secret], now)])
  {
    var vs := v.secrets[secret];
    assert AllRevoked(vs[..0], now) + vs[0..] == vs;
    assert vs[..|vs|] == vs;
    assert AllRevoked(vs, now) + vs[|vs|..] == AllRevoked(vs, now);
  }

  lemma RevokeSecretMatches(env: Env, draw: Draw, db: Db, v: Vault, secret: SecretKey)
    requires VaultHolds(env.primitives, env.master.key, v) && Represents(env.master.key, db, v)
    ensures Matches(env.master.key,
                    Commit(db, RevokeSecretPlan(env, draw, db.versions, secret.workspaceId, secret.secretId)),
                    RevokeWhole(draw, v, secret))
  {
    VaultHasSecrets(env.primitives, env.master.key, v);
    var vs := Versions(v, secret);
    AllRowsMatch(env, db, v, secret);
    if vs != [] {
      forall k | k in KeysFrom(vs, 0) ensures k in db.versions {
        var j :| 0 <= j < |vs| && k == KeyOf(vs[j].metadata);
        VersionPlaced(env, db, v, secret, j);
      }
      RevokedUpToEnds(v, secret, draw.now);
      RevokeLoopMatches(env, draw, db, db, v, secret, 0);
      assert AllRevoked(vs, draw.now)[0..] == AllRevoked(vs, draw.now);
    }
  }

  // ----- Revoke one version -----------------------------------------------------------------

  lemma RetireMatches(env: Env, draw: Draw, db: Db, v: Vault, secret: SecretKey, i: nat, at: CorrelationKey,
                      callerSubject: string, providerId: string)
    requires SecretsHold(env.primitives, env.master.key, v) && Represents(env.master.key, db, v)
    requires i < |Versions(v, secret)| && Versions(v, secret)[i].metadata.status == Active
    requires at.workspaceId == secret.workspaceId && at !in v.book.revocations
    requires !VersionRevocationRecorded(v.book.revocations, secret.workspaceId, secret.secretId,
                                        Versions(v, secret)[i].metadata.versionId)
    ensures var version := Versions(v, secret)[i];
            var m := version.metadata;
            Matches(env.master.key,
                    Commit(db, RetirePlan(env, draw, m, version.value, at, callerSubject, providerId)),
                    Audited(v, VersionRetired(v, secret, i, at, callerSubject, draw.now), draw,
                            AuditOf(draw, providerId, secret.workspaceId, secret.secretId, Some(m.versionId),
                                    Label(m.labels, "intent"), callerSubject, at.correlationId, SecretVersionRevoked),
                            Stored(AsRevoked(m, draw.now))))
  {
    var version := Versions(v, secret)[i];
    var m := version.metadata;
    var plan := RetirePlan(env, draw, m, version.value, at, callerSubject, providerId);
    VersionPlaced(env, db, v, secret, i);
    assert SecretHolds(env.primitives, env.master.key, secret, v.secrets[secret]);
    assert VersionHolds(env.primitives, env.master.key, secret, v.secrets[secret], i);
    UpdateMatches(env, db, v, secret, i, draw.nonce(0), draw.now);
    var updated := Apply(db, plan.statements[0]).value;
    var revocation, record := plan.statements[1].revocation, plan.statements[2].record;
    CommitThree(db, plan.statements[0], plan.statements[1], plan.statements[2], plan.outcome.value);
    var recorded := v.book.(revocations := v.book.revocations[at := revocation]);
    SameBookChange(env.master.key, updated, RevokedAt(v, secret, i, draw.now),
                   recorded.(audit := recorded.audit[draw.eventId := record]));
    SameBookChange(env.master.key, updated, RevokedAt(v, secret, i, draw.now), recorded);
  }

  lemma RevokeReplayMatches(env: Env, draw: Draw, db: Db, v: Vault, secret: SecretKey, versionId: string,
                            versionNumber: int, callerSubject: string, correlationId: string, providerId: string)
    requires VaultHolds(env.primitives, env.master.key, v) && Represents(env.master.key, db, v)
    requires CorrelationKey(secret.workspaceId, correlationId) in v.book.revocations
    ensures Matches(env.master.key,
                    Commit(db, RevokeVersionPlan(env, draw, db.versions, db.book.revocations, secret.workspaceId,
                                                 secret.secretId, versionId, versionNumber, callerSubject,
                                                 correlationId, providerId)),
                    RevokeOne(draw, v, secret, versionId, versionNumber, callerSubject, correlationId, providerId))
  {
    hide VaultHolds, SecretsHold, Represents, MetadataFromRow, DecryptRow, Commit, Audited, VersionRevocationRecorded,
         Label, RetirePlan, IndexOf;
    VaultHasSecrets(env.primitives, env.master.key, v);
    VaultHasRevocation(env.primitives, env.master.key, v, CorrelationKey(secret.workspaceId, correlationId));
    var at := CorrelationKey(secret.workspaceId, correlationId);
    var r := v.book.revocations[at];
    SameBookOf(env.master.key, db, v);
    CommitNone(db, Failure(RevocationConflict));
    if r.secretId == secret.secretId && r.versionId == versionId && r.versionNumber == versionNumber
       && r.callerSubject == callerSubject {
      VersionPlaced(env, db, v, secret, versionNumber - 1);
      VersionReads(env, db, v, secret, versionNumber - 1);
      VersionOf(env.primitives, env.master.key, v, secret, versionNumber - 1);
      var m := Versions(v, secret)[versionNumber - 1].metadata;
      AuditMatches(env.master.key, db, v, draw,
                   AuditOf(draw, providerId, secret.workspaceId, secret.secretId, Some(versionId),
                           Label(m.labels, "intent"), callerSubject, correlationId, SecretVersionRevocationReplayed),
                   Stored(m));
    }
  }

  lemma RevokeFreshMatches(env: Env, draw: Draw, db: Db, v: Vault, secret: SecretKey, i: nat, versionNumber: int,
                           callerSubject: string, correlationId: string, providerId: string)
    requires VaultHolds(env.primitives, env.master.key, v) && Represents(env.master.key, db, v)
    requires i < |Versions(v, secret)|
    requires CorrelationKey(secret.workspaceId, correlationId) !in v.book.revocations
    requires !VersionRevocationRecorded(v.book.revocations, secret.workspaceId, secret.secretId,
                                        Versions(v, secret)[i].metadata.versionId)
    ensures var versionId := Versions(v, secret)[i].metadata.versionId;
            Matches(env.master.key,
                    Commit(db, RevokeVersionPlan(env, draw, db.versions, db.book.revocations, secret.workspaceId,
                                                 secret.secretId, versionId, versionNumber, callerSubject,
                                                 correlationId, providerId)),
                    RevokeOne(draw, v, secret, versionId, versionNumber, callerSubject, correlationId, providerId))
  {
    VaultHasSecrets(env.primitives, env.master.key, v);
    var at := CorrelationKey(secret.workspaceId, correlationId);
    var m := Versions(v, secret)[i].metadata;
    VersionPlaced(env, db, v, secret, i);
    VersionReads(env, db, v, secret, i);
    assert SecretHolds(env.primitives, env.master.key, secret, v.secrets[secret]);
    assert VersionHolds(env.primitives, env.master.key, secret, v.secrets[secret], i);
    if i + 1 == versionNumber && m.status == Active {
      RetireMatches(env, draw, db, v, secret, i, at, callerSubject, providerId);
    }
  }

  lemma RevokeVersionMatches(env: Env, draw: Draw, db: Db, v: Vault, secret: SecretKey, versionId: string,
                             versionNumber: int, callerSubject: string, correlationId: string, providerId: string)
    requires VaultHolds(env.primitives, env.master.key, v) && Represents(env.master.key, db, v)
    ensures Matches(env.master.key,
                    Commit(db, RevokeVersionPlan(env, draw, db.versions, db.book.revocations, secret.workspaceId,
                                                 secret.secretId, versionId, versionNumber, callerSubject,
                                                 correlationId, providerId)),
                    RevokeOne(draw, v, secret, versionId, versionNumber, callerSubject, correlationId, providerId))
  {
    VaultHasSecrets(env.primitives, env.master.key, v);
    if CorrelationKey(secret.workspaceId, correlationId) in v.book.revocations {
      RevokeReplayMatches(env, draw, db, v, secret, versionId, versionNumber, callerSubject, correlationId, providerId);
    } else if !VersionRevocationRecorded(v.book.revocations, secret.workspaceId, secret.secretId, versionId) {
      SelectMatches(env, db, v, secret, Some(versionId));
      var i := IndexOf(Versions(v, secret), versionId);
      if i.Some? {
        RevokeFreshMatches(env, draw, db, v, secret, i.value, versionNumber, callerSubject, correlationId, providerId);
      }
    }
  }

  // ----- Generate ---------------------------------------------------------------------------

  lemma ReadGenerationMatches(env: Env, db: Db, v: Vault, at: CorrelationKey, g: Generation)
    requires VaultHolds(env.primitives, env.master.key, v) && Represents(env.master.key, db, v)
    requires GenerationHolds(env.primitives, v, at, g)
    ensures var first := Versions(v, SecretKey(at.workspaceId, g.secretId))[0];
            ReadGeneration(env, db.versions, at, g, IntentFor(g.purpose).value)
            == if first.metadata.status == Revoked then Failure(SecretRevoked)
               else
                 Success(GeneratedKey(first.metadata, g.secretReference, g.purpose, g.issuer, at.correlationId, g.keyId,
                                      g.algorithm, g.publicPem, true))
  {
    VaultHasSecrets(env.primitives, env.master.key, v);
    var secret := SecretKey(at.workspaceId, g.secretId);
    VersionPlaced(env, db, v, secret, 0);
    VersionReads(env, db, v, secret, 0);
  }

  lemma KeyStoredMatches(env: Env, draw: Draw, db: Db, v: Vault, secret: SecretKey, m: Metadata, at: CorrelationKey,
                         g: Generation, record: AuditRecord, reply: Reply)
    requires VaultHolds(env.primitives, env.master.key, v) && Represents(env.master.key, db, v)
    requires secret !in v.secrets && FitsAt(env.primitives, env.master.key, secret, m, 1)
    requires at.workspaceId == secret.workspaceId && at !in v.book.generations
    requires g.secretId == secret.secretId && g.versionId == m.versionId
    ensures var insert := InsertOf(env, draw, m, env.primitives.privatePem(draw.seed));
            Matches(env.master.key,
                    Commit(db, Plan([insert, InsertGeneration(at, g), InsertAudit(draw.eventId, record)],
                                    Success(reply))),
                    Audited(v, KeyStored(env, draw, v, secret, m, at, g), draw, record, reply))
  {
    VaultHasSecrets(env.primitives, env.master.key, v);
    var value := env.primitives.privatePem(draw.seed);
    var insert := InsertOf(env, draw, m, value);
    InsertMatches(env, draw, db, v, secret, m, value);
    var inserted := Apply(db, insert).value;
    NoGenerationWithoutSecret(env.primitives, v, secret);
    CommitThree(db, insert, InsertGeneration(at, g), InsertAudit(draw.eventId, record), reply);
    var recorded := v.book.(generations := v.book.generations[at := g]);
    SameBookChange(env.master.key, inserted, Extended(v, secret, Version(m, value)),
                   recorded.(audit := recorded.audit[draw.eventId := record]));
  }

  lemma GenerateReplayMatches(env: Env, draw: Draw, db: Db, v: Vault, secret: SecretKey, secretReference: string,
                              purpose: string, intent: string, issuer: string, callerSubject: string,
                              correlationId: string, providerId: string)
    requires VaultHolds(env.primitives, env.master.key, v) && Represents(env.master.key, db, v)
    requires CorrelationKey(secret.workspaceId, correlationId) in v.book.generations
    ensures Matches(env.master.key,
                    Commit(db, GeneratePlan(env, draw, db.versions, db.book.generations, secret.workspaceId,
                                            secret.secretId, secretReference, purpose, intent, issuer,
                                            callerSubject, correlationId, providerId)),
                    GenerateKey(env, draw, v, secret, secretReference, purpose, intent, issuer, callerSubject,
                                correlationId, providerId))
  {
    var at := CorrelationKey(secret.workspaceId, correlationId);
    var g := v.book.generations[at];
    assert GenerationHolds(env.primitives, v, at, g);
    if IntentFor(purpose) == Some(intent) && g.purpose == purpose && g.secretId == secret.secretId {
      ReadGenerationMatches(env, db, v, at, g);
      var first := Versions(v, secret)[0].metadata;
      AuditMatches(env.master.key, db, v, draw,
                   AuditOf(draw, providerId, secret.workspaceId, secret.secretId, Some(first.versionId), Some(intent),
                           callerSubject, correlationId, DelegationKeyGenerationReplayed),
                   Generated(GeneratedKey(first, g.secretReference, g.purpose, g.issuer, correlationId, g.keyId,
                                          g.algorithm, g.publicPem, true)));
    }
  }

  lemma GenerateFreshMatches(env: Env, draw: Draw, db: Db, v: Vault, secret: SecretKey, secretReference: string,
                             purpose: string, intent: string, issuer: string, callerSubject: string,
                             correlationId: string, providerId: string)
    requires VaultHolds(env.primitives, env.master.key, v) && Represents(env.master.key, db, v)
    requires CorrelationKey(secret.workspaceId, correlationId) !in v.book.generations
    ensures Matches(env.master.key,
                    Commit(db, GeneratePlan(env, draw, db.versions, db.book.generations, secret.workspaceId,
                                            secret.secretId, secretReference, purpose, intent, issuer,
                                            callerSubject, correlationId, providerId)),
                    GenerateKey(env, draw, v, secret, secretReference, purpose, intent, issuer, callerSubject,
                                correlationId, providerId))
  {
    VaultHasSecrets(env.primitives, env.master.key, v);
    var at := CorrelationKey(secret.workspaceId, correlationId);
    var m := GeneratedMetadata(env, draw, secret, purpose, intent, issuer);
    var g := GenerationOf(env, draw, secret, secretReference, purpose, issuer, callerSubject);
    var plan := GeneratePlan(env, draw, db.versions, db.book.generations, secret.workspaceId, secret.secretId,
                             secretReference, purpose, intent, issuer, callerSubject, correlationId, providerId);
    if plan.outcome.Success? {
      if secret in v.secrets {
        assert SecretHolds(env.primitives, env.master.key, secret, v.secrets[secret]);
        FirstNumberTaken(env, draw, db, v, secret, m, env.primitives.privatePem(draw.seed));
        CommitThree(db, plan.statements[0], plan.statements[1], plan.statements[2], plan.outcome.value);
      } else {
        KeyStoredMatches(env, draw, db, v, secret, m, at, g, plan.statements[2].record, plan.outcome.value);
      }
    }
  }

  // ----- Every call -------------------------------------------------------------------------

  /** One call on the tables: the vault's outcome, and tables that represent the vault's next state. */
  lemma ExecuteMatches(env: Env, draw: Draw, request: Request, db: Db, v: Vault)
    requires VaultHolds(env.primitives, env.master.key, v) && Represents(env.master.key, db, v)
    ensures Matches(env.master.key, Execute(env, draw, request, db), Perform(env, draw, request, v))
  {
    match request
    case Create(w, s, value, labels) => CreateMatches(env, draw, db, v, SecretKey(w, s), value, labels);
    case Rotate(w, s, value, labels, expected) =>
      RotateMatches(env, draw, db, v, SecretKey(w, s), value, labels, expected);
    case RevokeSecret(w, s) => RevokeSecretMatches(env, draw, db, v, SecretKey(w, s));
    case RevokeVersion(w, s, id, number, caller, correlation, provider) =>
      RevokeVersionMatches(env, draw, db, v, SecretKey(w, s), id, number, caller, correlation, provider);
    case ResolveForUse(w, s, intent, caller, correlation, version) =>
      ResolveForUseMatches(env, draw, db, v, SecretKey(w, s), intent, caller, correlation, version);
    case Generate(w, s, reference, purpose, intent, issuer, caller, correlation, provider) =>
      if CorrelationKey(w, correlation) in v.book.generations {
        GenerateReplayMatches(env, draw, db, v, SecretKey(w, s), reference, purpose, intent, issuer, caller,
                              correlation, provider);
      } else {
        GenerateFreshMatches(env, draw, db, v, SecretKey(w, s), reference, purpose, intent, issuer, caller, correlation,
                             provider);
      }
    case ReadMetadata(_, _, _) => ReadsMatch(env, draw, request, db, v);
    case Resolve(_, _, _) => ReadsMatch(env, draw, request, db, v);
    case AppendAudit(record) => AuditMatches(env.master.key, db, v, draw, record, Appended);
  }
}
