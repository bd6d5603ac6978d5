/** Rows edited from outside: every resolved value was inserted under exactly the metadata it comes
    back with. The AEAD is ideal, so an edit can move, repeat or destroy ciphertexts but not make one
    under the provider's key; the ledger holds the ciphertexts made so far. */
module Authenticity {
  import opened Wrappers
  import opened JsonObjects
  import opened Models
  import opened Crypto
  import opened Signing
  import opened Tables
  import opened StoreSpec
  import opened Runs

  datatype Happening =
    | Ran(event: Event)
    | Edited(db: Db)
    | Witnessed(nonce: Bytes, plaintext: Bytes, providerId: string)

  datatype World = World(db: Db, ledger: set<Ciphertext>)

  function SealedBy(s: Statement): set<Ciphertext>
  {
    match s
    case InsertVersion(_, row) => {row.ciphertext}
    case UpdateVersion(_, _, _, ciphertext, _) => {ciphertext}
    case _ => {}
  }

  function SealedByAll(statements: seq<Statement>): set<Ciphertext>
  {
    if statements == [] then {} else SealedBy(statements[0]) + SealedByAll(statements[1..])
  }

  ghost function StatementsOf(provider: Provider, e: Event, db: Db): seq<Statement>
  {
    if e.Called? then PlanOf(EnvOf(provider, e.keyVersion), e.draw, e.request, db).statements else []
  }

  /** No row holds a ciphertext under `key` that was never made. */
  ghost predicate Unforged(key: Bytes, db: Db, ledger: set<Ciphertext>)
  {
    forall k | k in db.versions ::
      var c := db.versions[k].ciphertext; c.Sealed? && c.key == key ==> c in ledger
  }

  ghost function Next(provider: Provider, w: World, h: Happening): World
  {
    match h
    case Ran(e) => World(Step(provider, e, w.db).0, w.ledger + SealedByAll(StatementsOf(provider, e, w.db)))
    case Edited(db) => if Unforged(provider.key, db, w.ledger) then w.(db := db) else w
    case Witnessed(nonce, plaintext, providerId) =>
      w.(ledger := w.ledger + {Encrypt(provider.key, nonce, plaintext, CustodyContext(providerId))})
  }

  ghost function WorldAt(provider: Provider, happenings: seq<Happening>, n: nat): World
    requires n <= |happenings|
  {
    if n == 0 then World(EMPTY_DB, {}) else Next(provider, WorldAt(provider, happenings, n - 1), happenings[n - 1])
  }

  /** Happening `i` was a call that inserted `value` under active metadata `m`. */
  ghost predicate InsertedAt(provider: Provider, happenings: seq<Happening>, i: nat, m: Metadata, value: Bytes)
    requires i < |happenings|
  {
    && happenings[i].Ran? && happenings[i].event.Called? && m.status == Active
    && var e := happenings[i].event;
    InsertOf(EnvOf(provider, e.keyVersion), e.draw, m, value)
    in StatementsOf(provider, e, WorldAt(provider, happenings, i).db)
  }

  // ----- What a call seals ------------------------------------------------------------------

  ghost predicate IsInsert(env: Env, draw: Draw, s: Statement, m: Metadata, value: Bytes)
  {
    s == InsertOf(env, draw, m, value) && m.status == Active
  }

  ghost predicate IsRevoke(env: Env, s: Statement, m: Metadata, nonce: Bytes, value: Bytes, now: string)
  {
    s == RevokeUpdate(env, m, nonce, value, now)
  }

  /** A statement seals nothing, inserts an active version, or revokes one. */
  ghost predicate SealsProperly(env: Env, draw: Draw, s: Statement)
  {
    match s
    case InsertVersion(_, _) => exists m, value :: IsInsert(env, draw, s, m, value)
    case UpdateVersion(_, _, _, _, _) => exists m, nonce, value, now :: IsRevoke(env, s, m, nonce, value, now)
    case _ => true
  }

  lemma InsertSealsProperly(env: Env, draw: Draw, m: Metadata, value: Bytes)
    requires m.status == Active
    ensures SealsProperly(env, draw, InsertOf(env, draw, m, value))
  {
    assert IsInsert(env, draw, InsertOf(env, draw, m, value), m, value);
  }

  lemma RevokeSealsProperly(env: Env, draw: Draw, m: Metadata, nonce: Bytes, value: Bytes, now: string)
    ensures SealsProperly(env, draw, RevokeUpdate(env, m, nonce, value, now))
  {
    assert IsRevoke(env, RevokeUpdate(env, m, nonce, value, now), m, nonce, value, now);
  }

  lemma {:induction false} LoopSealsProperly(env: Env, draw: Draw, versions: map<VersionKey, VersionRow>,
                                             ks: seq<VersionKey>, i: nat)
    requires i <= |ks| && forall k :: k in ks ==> k in versions
    ensures forall s | s in RevokeRows(env, draw, versions, ks, i).statements :: SealsProperly(env, draw, s)
    decreases |ks| - i
  {
    hide MetadataFromRow, DecryptRow, SealsProperly, RevokeUpdate;
    if i < |ks| {
      LoopSealsProperly(env, draw, versions, ks, i + 1);
      var m, value := MetadataFromRow(ks[i], versions[ks[i]]), DecryptRow(env, ks[i], versions[ks[i]]);
      if m.Some? && value.Success? {
        RevokeSealsProperly(env, draw, m.value, draw.nonce(i), value.value, draw.now);
      }
    }
  }

  lemma WriteSealsProperly(env: Env, draw: Draw, w: string, s: string, value: Bytes, labels: Labels, number: int)
    ensures forall t | t in InsertPlan(env, draw, w, s, value, labels, number).statements :: SealsProperly(env, draw, t)
  {
    hide SealsProperly, InsertOf, LabelsClean;
    InsertSealsProperly(env, draw, FreshMetadata(env, draw, w, s, labels, number), value);
  }

  lemma RotateSealsProperly(env: Env, draw: Draw, request: Request, db: Db)
    requires request.Rotate?
    ensures forall s | s in PlanOf(env, draw, request, db).statements :: SealsProperly(env, draw, s)
  {
    hide SealsProperly, InsertPlan, MetadataFromRow, Label;
    var latest := LatestRow(db.versions, SecretKey(request.workspaceId, request.secretId));
    if latest.Some? && MetadataFromRow(latest.value, db.versions[latest.value]).Some? {
      WriteSealsProperly(env, draw, request.workspaceId, request.secretId, request.value, request.labels,
                         MetadataFromRow(latest.value, db.versions[latest.value]).value.versionNumber + 1);
    }
  }

  lemma RetireSealsProperly(env: Env, draw: Draw, request: Request, db: Db)
    requires request.RevokeVersion?
    ensures forall s | s in PlanOf(env, draw, request, db).statements :: SealsProperly(env, draw, s)
  {
    hide InsertOf, RevokeUpdate, IsInsert, IsRevoke, MetadataFromRow, DecryptRow, Label, VersionRevocationRecorded;
    var k := VersionKey(request.workspaceId, request.secretId, request.versionId);
    if k in db.versions {
      var m, value := MetadataFromRow(k, db.versions[k]), DecryptRow(env, k, db.versions[k]);
      if m.Some? && value.Success? {
        RevokeSealsProperly(env, draw, m.value, draw.nonce(0), value.value, draw.now);
        UpdateIsUpdate(env, m.value, draw.nonce(0), value.value, draw.now);
      }
    }
  }

  lemma UpdateIsUpdate(env: Env, m: Metadata, nonce: Bytes, value: Bytes, now: string)
    ensures RevokeUpdate(env, m, nonce, value, now).UpdateVersion?
  {
  }

  lemma GenerateSealsProperly(env: Env, draw: Draw, request: Request, db: Db)
    requires request.Generate?
    ensures forall s | s in PlanOf(env, draw, request, db).statements :: SealsProperly(env, draw, s)
  {
    hide InsertOf, IsInsert, IsRevoke, ReadGeneration, LabelsClean, FamilyLabels, IntentFor;
    var keyId := DelegationKeyId(env.primitives, env.primitives.publicPem(draw.seed));
    var labels := FamilyLabels(request.intent, request.purpose, request.issuer, keyId);
    InsertSealsProperly(env, draw, FreshMetadata(env, draw, request.workspaceId, request.secretId, labels, 1),
                        env.primitives.privatePem(draw.seed));
  }

  lemma PlanSealsProperly(env: Env, draw: Draw, request: Request, db: Db)
    ensures forall s | s in PlanOf(env, draw, request, db).statements :: SealsProperly(env, draw, s)
  {
    hide InsertPlan, RotatePlan, RevokeVersionPlan, GeneratePlan, RevokeRows, IsInsert, IsRevoke, ReadForUse, SelectRow,
         MetadataFromRow, DecryptRow, Label;
    match request
    case Create(w, s, value, labels) => WriteSealsProperly(env, draw, w, s, value, labels, 1);
    case Rotate(_, _, _, _, _) => RotateSealsProperly(env, draw, request, db);
    case RevokeSecret(w, s) =>
      LoopSealsProperly(env, draw, db.versions, Ascending(db.versions, RowsOf(db.versions, SecretKey(w, s))), 0);
    case RevokeVersion(_, _, _, _, _, _, _) => RetireSealsProperly(env, draw, request, db);
    case Generate(_, _, _, _, _, _, _, _, _) => GenerateSealsProperly(env, draw, request, db);
    case _ =>
  }

  // ----- The ledger -------------------------------------------------------------------------

  /** Every ciphertext on the ledger is an insert that happened, a revoked version, or a witness. */
  ghost predicate Justified(provider: Provider, happenings: seq<Happening>, n: nat, c: Ciphertext)
    requires n <= |happenings|
  {
    && c.Sealed? && c.key == provider.key
    && ((exists i: nat, m :: i < n && c.aad == Aad(m) && InsertedAt(provider, happenings, i, m, c.plaintext))
        || (exists m: Metadata :: m.status == Revoked && c.aad == Aad(m))
        || (exists providerId :: c.aad == CustodyContext(providerId)))
  }

  ghost predicate LedgerHolds(provider: Provider, happenings: seq<Happening>, n: nat)
    requires n <= |happenings|
  {
    var w := WorldAt(provider, happenings, n);
    (forall c | c in w.ledger :: Justified(provider, happenings, n, c)) && Unforged(provider.key, w.db, w.ledger)
  }

  lemma StatementJustified(provider: Provider, happenings: seq<Happening>, n: nat, s: Statement, c: Ciphertext)
    requires n < |happenings| && happenings[n].Ran? && happenings[n].event.Called?
    requires var e := happenings[n].event;
             && s in StatementsOf(provider, e, WorldAt(provider, happenings, n).db)
             && SealsProperly(EnvOf(provider, e.keyVersion), e.draw, s)
    requires c in SealedBy(s)
    ensures Justified(provider, happenings, n + 1, c)
  {
    hide Aad, StatementsOf, WorldAt;
    var e := happenings[n].event;
    var env := EnvOf(provider, e.keyVersion);
    if s.InsertVersion? {
      var m, value :| IsInsert(env, e.draw, s, m, value);
      assert c == Encrypt(provider.key, e.draw.nonce(0), value, Aad(m));
      assert InsertedAt(provider, happenings, n, m, value);
    } else {
      var m, nonce, value, now :| IsRevoke(env, s, m, nonce, value, now);
      assert c == Encrypt(provider.key, nonce, value, Aad(AsRevoked(m, now)));
    }
  }

  lemma {:induction false} SealedByMember(statements: seq<Statement>, c: Ciphertext)
    requires c in SealedByAll(statements)
    ensures exists s :: s in statements && c in SealedBy(s)
  {
    if c in SealedBy(statements[0]) {
      assert statements[0] in statements;
    } else {
      SealedByMember(statements[1..], c);
      var s :| s in statements[1..] && c in SealedBy(s);
      assert s in statements;
    }
  }

  lemma ApplyUnforged(key: Bytes, db: Db, s: Statement, ledger: set<Ciphertext>)
    requires Unforged(key, db, ledger)
    ensures var r := Apply(db, s); r.Success? ==> Unforged(key, r.value, ledger + SealedBy(s))
  {
    hide NumberTaken, SecretGenerated, VersionRevocationRecorded;
  }

  lemma {:induction false} ApplyAllUnforged(key: Bytes, db: Db, statements: seq<Statement>, ledger: set<Ciphertext>)
    requires Unforged(key, db, ledger)
    ensures var r := ApplyAll(db, statements); r.Success? ==> Unforged(key, r.value, ledger + SealedByAll(statements))
    decreases |statements|
  {
    hide Unforged, Apply, SealedBy;
    if statements == [] {
      assert ledger + SealedByAll(statements) == ledger;
    } else {
      ApplyUnforged(key, db, statements[0], ledger);
      var r := Apply(db, statements[0]);
      if r.Success? {
        ApplyAllUnforged(key, r.value, statements[1..], ledger + SealedBy(statements[0]));
        assert ledger + SealedBy(statements[0]) + SealedByAll(statements[1..]) == ledger + SealedByAll(statements);
      }
    }
  }

  lemma UnforgedWithMore(key: Bytes, db: Db, ledger: set<Ciphertext>, more: set<Ciphertext>)
    requires Unforged(key, db, ledger)
    ensures Unforged(key, db, ledger + more)
  {
  }

  lemma StepUnforged(provider: Provider, e: Event, w: World)
    requires Unforged(provider.key, w.db, w.ledger)
    ensures Unforged(provider.key, Step(provider, e, w.db).0, w.ledger + SealedByAll(StatementsOf(provider, e, w.db)))
  {
    hide Unforged, PlanOf, ApplyAll, SealedByAll;
    var statements := StatementsOf(provider, e, w.db);
    ApplyAllUnforged(provider.key, w.db, statements, w.ledger);
    UnforgedWithMore(provider.key, w.db, w.ledger, SealedByAll(statements));
  }

  lemma JustifiedLater(provider: Provider, happenings: seq<Happening>, n: nat, c: Ciphertext)
    requires n < |happenings| && Justified(provider, happenings, n, c)
    ensures Justified(provider, happenings, n + 1, c)
  {
  }

  lemma RanJustified(provider: Provider, happenings: seq<Happening>, n: nat, c: Ciphertext)
    requires n < |happenings| && happenings[n].Ran?
    requires c in SealedByAll(StatementsOf(provider, happenings[n].event, WorldAt(provider, happenings, n).db))
    ensures Justified(provider, happenings, n + 1, c)
  {
    hide Justified, SealsProperly, PlanOf, SealedBy, WorldAt;
    var e, db := happenings[n].event, WorldAt(provider, happenings, n).db;
    var statements := StatementsOf(provider, e, db);
    SealedByMember(statements, c);
    var s :| s in statements && c in SealedBy(s);
    PlanSealsProperly(EnvOf(provider, e.keyVersion), e.draw, e.request, db);
    StatementJustified(provider, happenings, n, s, c);
  }

  lemma WitnessJustified(provider: Provider, happenings: seq<Happening>, n: nat, nonce: Bytes, plaintext: Bytes,
                         id: string)
    requires n <= |happenings|
    ensures Justified(provider, happenings, n, Encrypt(provider.key, nonce, plaintext, CustodyContext(id)))
  {
    hide CustodyContext;
  }

  lemma {:induction false} LedgerAlwaysHolds(provider: Provider, happenings: seq<Happening>, n: nat)
    requires n <= |happenings|
    ensures LedgerHolds(provider, happenings, n)
  {
    hide Justified, Unforged, StatementsOf, Step, CustodyContext, SealedByAll;
    if n == 0 {
      NothingForged(provider.key);
    } else {
      LedgerAlwaysHolds(provider, happenings, n - 1);
      var before, after, h := WorldAt(provider, happenings, n - 1), WorldAt(provider, happenings, n), happenings[n - 1];
      forall c | c in after.ledger ensures Justified(provider, happenings, n, c) {
        if c in before.ledger {
          JustifiedLater(provider, happenings, n - 1, c);
        } else if h.Ran? {
          RanJustified(provider, happenings, n - 1, c);
        } else {
          WitnessJustified(provider, happenings, n, h.nonce, h.plaintext, h.providerId);
        }
      }
      match h
      case Ran(e) => StepUnforged(provider, e, before);
      case Edited(_) =>
      case Witnessed(nonce, plaintext, id) =>
        UnforgedWithMore(provider.key, before.db, before.ledger,
                         {Encrypt(provider.key, nonce, plaintext, CustodyContext(id))});
    }
  }

  lemma NothingForged(key: Bytes)
    ensures Unforged(key, EMPTY_DB, {})
  {
  }

  // ----- Resolved values --------------------------------------------------------------------

  /** A resolved pair was read from a row that decrypts under its own active metadata. */
  lemma ResolvedFromRow(env: Env, draw: Draw, request: Request, db: Db)
    requires request.Resolve? || request.ResolveForUse?
    requires PlanOf(env, draw, request, db).outcome.Success?
    ensures var reply := PlanOf(env, draw, request, db).outcome.value;
            && reply.Resolved? && reply.metadata.status == Active
            && exists k :: k in db.versions && MetadataFromRow(k, db.versions[k]) == Some(reply.metadata)
                           && DecryptRow(env, k, db.versions[k]) == Success(reply.value)
  {
    hide MetadataFromRow, DecryptRow, Label;
    if request.Resolve? {
      var k := SelectRow(db.versions, SecretKey(request.workspaceId, request.secretId), request.version);
      assert k.Some? && k.value in db.versions;
    } else {
      var at := CorrelationKey(request.workspaceId, request.correlationId);
      var selected := SelectRow(db.versions, SecretKey(request.workspaceId, request.secretId), request.version);
      var id := if at in db.book.pins then db.book.pins[at].versionId
                else MetadataFromRow(selected.value, db.versions[selected.value]).value.versionId;
      var k := VersionKey(request.workspaceId, request.secretId, id);
      assert k in db.versions;
    }
  }

  lemma DecryptedWasSealed(env: Env, k: VersionKey, row: VersionRow, m: Metadata, value: Bytes)
    requires MetadataFromRow(k, row) == Some(m) && DecryptRow(env, k, row) == Success(value)
    ensures row.ciphertext == Sealed(env.master.key, row.nonce, value, Aad(m))
  {
    hide Aad, LoadLabels;
  }

  lemma ActiveWasInserted(provider: Provider, happenings: seq<Happening>, n: nat, c: Ciphertext, m: Metadata)
    requires n <= |happenings| && Justified(provider, happenings, n, c)
    requires c.aad == Aad(m) && m.status == Active
    ensures exists i: nat :: i < n && InsertedAt(provider, happenings, i, m, c.plaintext)
  {
    hide Aad, CustodyContext, InsertedAt;
    if providerId :| c.aad == CustodyContext(providerId) {
      AadIsNoCustodyContext(m, providerId);
    }
    forall other: Metadata | c.aad == Aad(other) ensures other == m {
      AadInjective(m, other);
    }
  }

  /** Whatever was done to the rows, a resolved pair was inserted by an earlier call under exactly
      that metadata, all eleven fields of it, as an active version with exactly that value. */
  lemma ResolvedWasInserted(provider: Provider, happenings: seq<Happening>, n: nat)
    requires n < |happenings| && happenings[n].Ran? && happenings[n].event.Called?
    requires happenings[n].event.request.Resolve? || happenings[n].event.request.ResolveForUse?
    requires Step(provider, happenings[n].event, WorldAt(provider, happenings, n).db).1.Success?
    ensures var outcome := Step(provider, happenings[n].event, WorldAt(provider, happenings, n).db).1;
            && outcome.value.Resolved?
            && exists i: nat :: i < n && InsertedAt(provider, happenings, i, outcome.value.metadata,
                                                    outcome.value.value)
  {
    hide WorldAt, PlanOf, Justified, InsertedAt, MetadataFromRow, DecryptRow;
    var e, w := happenings[n].event, WorldAt(provider, happenings, n);
    var env := EnvOf(provider, e.keyVersion);
    LedgerAlwaysHolds(provider, happenings, n);
    ResolvedFromRow(env, e.draw, e.request, w.db);
    var reply := PlanOf(env, e.draw, e.request, w.db).outcome.value;
    var k :| k in w.db.versions && MetadataFromRow(k, w.db.versions[k]) == Some(reply.metadata)
             && DecryptRow(env, k, w.db.versions[k]) == Success(reply.value);
    DecryptedWasSealed(env, k, w.db.versions[k], reply.metadata, reply.value);
    ActiveWasInserted(provider, happenings, n, w.db.versions[k].ciphertext, reply.metadata);
  }
}
