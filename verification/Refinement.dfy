/** The encrypted tables refine the vault: same results, and every row decrypts to what was stored. */
module Refinement {
  import opened Wrappers
  import opened Models
  import opened Crypto
  import opened Tables
  import opened StoreSpec
  import opened Vault
  import opened History

  // ----- Representation ---------------------------------------------------------------------

  /** A row names the vault version with its number. */
  ghost predicate RowNamed(db: Db, v: Vault, k: VersionKey)
    requires k in db.versions
  {
    var vs, n := Versions(v, SecretOf(k)), db.versions[k].versionNumber;
    1 <= n <= |vs| && vs[n - 1].metadata.versionId == k.versionId
  }

  /** A vault version is sealed in its row under the provider's key. */
  ghost predicate RowStored(key: Bytes, db: Db, version: Version)
  {
    var k := KeyOf(version.metadata);
    k in db.versions && db.versions[k] == SealedRow(key, db.versions[k].nonce, version.metadata, version.value)
  }

  ghost predicate Represents(key: Bytes, db: Db, v: Vault)
  {
    && db.book == v.book
    && (forall k {:trigger RowNamed(db, v, k)} | k in db.versions :: RowNamed(db, v, k))
    && (forall secret, i: nat {:trigger RowStored(key, db, v.secrets[secret][i])} |
          secret in v.secrets && i < |v.secrets[secret]| :: RowStored(key, db, v.secrets[secret][i]))
  }

  lemma VersionPlaced(env: Env, db: Db, v: Vault, secret: SecretKey, i: nat)
    requires SecretsHold(env.primitives, env.master.key, v) && Represents(env.master.key, db, v)
    requires i < |Versions(v, secret)|
    ensures var m := Versions(v, secret)[i].metadata;
            && KeyOf(m) in db.versions && SecretOf(KeyOf(m)) == secret
            && db.versions[KeyOf(m)].versionNumber == i + 1
            && IndexOf(Versions(v, secret), m.versionId) == Some(i)
  {
    var vs := v.secrets[secret];
    assert SecretHolds(env.primitives, env.master.key, secret, vs);
    assert VersionHolds(env.primitives, env.master.key, secret, vs, i);
    assert RowStored(env.master.key, db, vs[i]);
  }

  lemma VersionReads(env: Env, db: Db, v: Vault, secret: SecretKey, i: nat)
    requires SecretsHold(env.primitives, env.master.key, v) && Represents(env.master.key, db, v)
    requires i < |Versions(v, secret)|
    ensures var version := Versions(v, secret)[i];
            var k := KeyOf(version.metadata);
            && k in db.versions
            && MetadataFromRow(k, db.versions[k]) == Some(version.metadata)
            && DecryptRow(env, k, db.versions[k]) == Success(version.value)
  {
    var vs := v.secrets[secret];
    assert SecretHolds(env.primitives, env.master.key, secret, vs);
    assert VersionHolds(env.primitives, env.master.key, secret, vs, i);
    assert RowStored(env.master.key, db, vs[i]);
    SealedRowReadsBack(env, db.versions[KeyOf(vs[i].metadata)].nonce, vs[i].metadata, vs[i].value);
  }

  lemma RowIsVersion(env: Env, db: Db, v: Vault, k: VersionKey)
    requires SecretsHold(env.primitives, env.master.key, v) && Represents(env.master.key, db, v)
    requires k in db.versions
    ensures var vs := Versions(v, SecretOf(k));
            var n := db.versions[k].versionNumber;
            1 <= n <= |vs| && k == KeyOf(vs[n - 1].metadata) && IndexOf(vs, k.versionId) == Some(n - 1)
  {
    assert RowNamed(db, v, k);
    VersionPlaced(env, db, v, SecretOf(k), db.versions[k].versionNumber - 1);
  }

  /** The rows of a secret are numbered 1 to n, and the latest row is the last version. */
  lemma LatestMatches(env: Env, db: Db, v: Vault, secret: SecretKey)
    requires SecretsHold(env.primitives, env.master.key, v) && Represents(env.master.key, db, v)
    ensures var vs := Versions(v, secret);
            LatestRow(db.versions, secret) == if vs == [] then None else Some(KeyOf(vs[|vs| - 1].metadata))
  {
    var vs := Versions(v, secret);
    forall k | k in RowsOf(db.versions, secret)
      ensures vs != [] && db.versions[k].versionNumber <= |vs|
      ensures db.versions[k].versionNumber == |vs| ==> k == KeyOf(vs[|vs| - 1].metadata)
    {
      RowIsVersion(env, db, v, k);
    }
    if vs != [] {
      VersionPlaced(env, db, v, secret, |vs| - 1);
      assert IsLatest(db.versions, secret, KeyOf(vs[|vs| - 1].metadata));
    }
  }

  lemma SelectMatches(env: Env, db: Db, v: Vault, secret: SecretKey, version: Option<string>)
    requires SecretsHold(env.primitives, env.master.key, v) && Represents(env.master.key, db, v)
    ensures SelectRow(db.versions, secret, version)
            == match Select(Versions(v, secret), version)
               case None => None
               case Some(i) => Some(KeyOf(Versions(v, secret)[i].metadata))
  {
    if version.None? {
      LatestMatches(env, db, v, secret);
    } else {
      var k := VersionKey(secret.workspaceId, secret.secretId, version.value);
      if k in db.versions {
        RowIsVersion(env, db, v, k);
      }
      var i := IndexOf(Versions(v, secret), version.value);
      if i.Some? {
        VersionPlaced(env, db, v, secret, i.value);
      }
    }
  }

  // ----- Statements -------------------------------------------------------------------------

  lemma InsertRepresents(env: Env, db: Db, v: Vault, secret: SecretKey, nonce: Bytes, m: Metadata, value: Bytes)
    requires SecretsHold(env.primitives, env.master.key, v) && Represents(env.master.key, db, v)
    requires FitsAt(env.primitives, env.master.key, secret, m, |Versions(v, secret)| + 1)
    requires KeyOf(m) !in db.versions
    ensures Represents(env.master.key,
                       db.(versions := db.versions[KeyOf(m) := SealedRow(env.master.key, nonce, m, value)]),
                       Extended(v, secret, Version(m, value)))
  {
    hide SecretsHold, SealedRow;
    var after := Extended(v, secret, Version(m, value));
    var r := db.(versions := db.versions[KeyOf(m) := SealedRow(env.master.key, nonce, m, value)]);
    forall k | k in r.versions ensures RowNamed(r, after, k) {
      SealedRowNumber(env.master.key, nonce, m, value);
      if k != KeyOf(m) { assert RowNamed(db, v, k); }
    }
    forall s, i: nat | s in after.secrets && i < |after.secrets[s]|
      ensures RowStored(env.master.key, r, after.secrets[s][i])
    {
      if s == secret && i == |Versions(v, secret)| {
        SealedRowNonce(env.master.key, nonce, m, value);
      } else {
        VersionPlaced(env, db, v, s, i);
        assert RowStored(env.master.key, db, v.secrets[s][i]);
      }
    }
  }

  lemma SealedRowNumber(key: Bytes, nonce: Bytes, m: Metadata, value: Bytes)
    ensures SealedRow(key, nonce, m, value).versionNumber == m.versionNumber
  {
  }

  lemma SealedRowNonce(key: Bytes, nonce: Bytes, m: Metadata, value: Bytes)
    ensures SealedRow(key, nonce, m, value).nonce == nonce
  {
  }

  /** Inserting the next version: it fails exactly on a taken id, and otherwise appends. */
  lemma InsertMatches(env: Env, draw: Draw, db: Db, v: Vault, secret: SecretKey, m: Metadata, value: Bytes)
    requires SecretsHold(env.primitives, env.master.key, v) && Represents(env.master.key, db, v)
    requires FitsAt(env.primitives, env.master.key, secret, m, |Versions(v, secret)| + 1)
    ensures var r := Apply(db, InsertOf(env, draw, m, value));
            if IndexOf(Versions(v, secret), m.versionId).Some? then r == Failure(AlreadyExists)
            else r.Success? && Represents(env.master.key, r.value, Extended(v, secret, Version(m, value)))
  {
    hide SecretsHold, Represents, SealedRow, IndexOf, Extended;
    var vs := Versions(v, secret);
    SealedRowNumber(env.master.key, draw.nonce(0), m, value);
    SelectMatches(env, db, v, secret, Some(m.versionId));
    forall k | k in db.versions && SecretOf(k) == secret ensures db.versions[k].versionNumber <= |vs| {
      RowIsVersion(env, db, v, k);
    }
    if IndexOf(vs, m.versionId).None? {
      InsertRepresents(env, db, v, secret, draw.nonce(0), m, value);
    }
  }

  lemma FirstNumberTaken(env: Env, draw: Draw, db: Db, v: Vault, secret: SecretKey, m: Metadata, value: Bytes)
    requires SecretsHold(env.primitives, env.master.key, v) && Represents(env.master.key, db, v)
    requires m.workspaceId == secret.workspaceId && m.secretId == secret.secretId && m.versionNumber == 1
    requires Versions(v, secret) != []
    ensures Apply(db, InsertOf(env, draw, m, value)) == Failure(AlreadyExists)
  {
    VersionPlaced(env, db, v, secret, 0);
    assert NumberTaken(db.versions, secret, 1);
  }

  /** The vault with one version revoked in place. */
  function RevokedAt(v: Vault, secret: SecretKey, i: nat, now: string): Vault
    requires i < |Versions(v, secret)|
  {
    var vs := Versions(v, secret);
    v.(secrets := v.secrets[secret := vs[i := RevokedVersion(vs[i], now)]])
  }

  lemma UpdatedRowStored(env: Env, version: Version, db: Db, nonce: Bytes, now: string)
    requires RowStored(env.master.key, db, version) && version.metadata.status == Active
    ensures var r := Apply(db, RevokeUpdate(env, version.metadata, nonce, version.value, now));
            && r.Success? && r.value.book == db.book
            && r.value.versions.Keys == db.versions.Keys
            && (forall k | k in db.versions && k != KeyOf(version.metadata) :: r.value.versions[k] == db.versions[k])
            && r.value.versions[KeyOf(version.metadata)].versionNumber
               == db.versions[KeyOf(version.metadata)].versionNumber
            && RowStored(env.master.key, r.value, RevokedVersion(version, now))
  {
  }

  lemma OtherKey(env: Env, db: Db, v: Vault, secret: SecretKey, i: nat, other: SecretKey, j: nat)
    requires SecretsHold(env.primitives, env.master.key, v) && Represents(env.master.key, db, v)
    requires i < |Versions(v, secret)| && j < |Versions(v, other)| && !(other == secret && j == i)
    ensures KeyOf(Versions(v, other)[j].metadata) != KeyOf(Versions(v, secret)[i].metadata)
    ensures KeyOf(Versions(v, other)[j].metadata) in db.versions
  {
    VersionPlaced(env, db, v, secret, i);
    VersionPlaced(env, db, v, other, j);
  }

  ghost predicate RowReplaced(before: Db, after: Db, key: VersionKey)
  {
    && after.book == before.book && after.versions.Keys == before.versions.Keys
    && forall k | k in before.versions ::
         after.versions[k].versionNumber == before.versions[k].versionNumber
         && (k != key ==> after.versions[k] == before.versions[k])
  }

  lemma ReplacedRow(env: Env, db: Db, after: Db, v: Vault, w: Vault, secret: SecretKey, i: nat, version: Version)
    requires SecretsHold(env.primitives, env.master.key, v) && Represents(env.master.key, db, v)
    requires i < |Versions(v, secret)| && KeyOf(version.metadata) == KeyOf(Versions(v, secret)[i].metadata)
    requires RowReplaced(db, after, KeyOf(version.metadata)) && RowStored(env.master.key, after, version)
    requires w == v.(secrets := v.secrets[secret := v.secrets[secret][i := version]])
    ensures Represents(env.master.key, after, w)
  {
    forall k | k in after.versions ensures RowNamed(after, w, k) {
      assert RowNamed(db, v, k);
    }
    forall s, j: nat | s in w.secrets && j < |w.secrets[s]| ensures RowStored(env.master.key, after, w.secrets[s][j]) {
      if !(s == secret && j == i) {
        assert w.secrets[s][j] == v.secrets[s][j];
        OtherKey(env, db, v, secret, i, s, j);
        assert RowStored(env.master.key, db, v.secrets[s][j]);
      }
    }
  }

  /** Revoking one active version in place. */
  lemma UpdateMatches(env: Env, db: Db, v: Vault, secret: SecretKey, i: nat, nonce: Bytes, now: string)
    requires SecretsHold(env.primitives, env.master.key, v) && Represents(env.master.key, db, v)
    requires i < |Versions(v, secret)| && Versions(v, secret)[i].metadata.status == Active
    ensures var version := Versions(v, secret)[i];
            var r := Apply(db, RevokeUpdate(env, version.metadata, nonce, version.value, now));
            && r.Success? && r.value.versions.Keys == db.versions.Keys && r.value.book == db.book
            && Represents(env.master.key, r.value, RevokedAt(v, secret, i, now))
  {
    var version := Versions(v, secret)[i];
    assert RowStored(env.master.key, db, v.secrets[secret][i]);
    UpdatedRowStored(env, version, db, nonce, now);
    var r := Apply(db, RevokeUpdate(env, version.metadata, nonce, version.value, now)).value;
    ReplacedRow(env, db, r, v, RevokedAt(v, secret, i, now), secret, i, RevokedVersion(version, now));
  }
}
