/** Custody admission: which key and provider own a database file, and what follows for every later
    admission and every call through an admitted handle. */
module Custody {
  import opened Wrappers
  import opened Models
  import opened Crypto
  import opened Tables
  import opened StoreSpec
  import opened Runs
  import opened Provenance
  import Store

  const SCHEMA_VERSION := 1
  const NONCE_BYTES := 12

  /** `cpk-secrets-custody-v1` in ASCII. */
  const WITNESS: Bytes := [99, 112, 107, 45, 115, 101, 99, 114, 101, 116, 115, 45, 99, 117, 115, 116, 111, 100, 121,
                           45, 118, 49]

  /** The schema of a database file: no object at all, exactly the declared objects, or anything else. */
  datatype Schema = ObjectFree | Expected | Other

  datatype Binding = Binding(singleton: int, schemaVersion: int, providerId: string, nonce: Bytes,
                             ciphertext: Ciphertext)

  datatype File = File(schema: Schema, bindings: seq<Binding>, db: Db)

  const EMPTY_FILE := File(ObjectFree, [], EMPTY_DB)

  datatype Path = Plain | InMemory | Symlink | NotAFile

  /** What SQLite does during the admission. */
  datatype Storage = Works | Busy | NotADatabase | CommitFails

  datatype CustodyError = Rejected | Unavailable

  function BindingFor(key: Bytes, providerId: string, nonce: Bytes): Binding
  {
    Binding(1, SCHEMA_VERSION, providerId, nonce, Encrypt(key, nonce, WITNESS, CustodyContext(providerId)))
  }

  /** The file is bound to this key and provider: one binding row, the witness sealed by them. */
  ghost predicate BoundTo(file: File, key: Bytes, providerId: string)
  {
    file.schema == Expected
    && exists nonce :: |nonce| == NONCE_BYTES && file.bindings == [BindingFor(key, providerId, nonce)]
  }

  /** `admit_provider_custody` on a file, with the 12 bytes it draws. */
  ghost function Admit(file: File, path: Path, storage: Storage, key: Bytes, providerId: string, nonce: Bytes)
    : (File, Result<(), CustodyError>)
  {
    if path != Plain || storage == NotADatabase then (file, Failure(Rejected))
    else if storage == Busy then (file, Failure(Unavailable))
    else
      var prepared :=
        if file.schema == ObjectFree then File(Expected, [BindingFor(key, providerId, nonce)], file.db) else file;
      if !BoundTo(prepared, key, providerId) then (file, Failure(Rejected))
      else if storage == CommitFails then (file, Failure(Unavailable))
      else (prepared, Success(()))
  }

  /** `_verify_binding`, check by check. */
  method VerifyBinding(bindings: seq<Binding>, key: Bytes, providerId: string) returns (ok: bool)
    ensures ok <==> exists nonce :: |nonce| == NONCE_BYTES && bindings == [BindingFor(key, providerId, nonce)]
  {
    if |bindings| != 1 {
      return false;
    }
    var b := bindings[0];
    if b.singleton != 1 || b.schemaVersion != SCHEMA_VERSION || b.providerId != providerId || |b.nonce| != NONCE_BYTES
       || CiphertextLength(b.ciphertext) != |WITNESS| + 16 {
      return false;
    }
    var plaintext := Decrypt(key, b.nonce, b.ciphertext, CustodyContext(providerId));
    if plaintext.None? || plaintext.value != WITNESS {
      return false;
    }
    assert bindings == [BindingFor(key, providerId, b.nonce)];
    ok := true;
  }

  /** The file behind one path, with its tables. */
  class ProviderFile {
    const database: Store.Database
    var schema: Schema
    var bindings: seq<Binding>

    function Contents(): File
      reads this, database
    {
      File(schema, bindings, database.Contents())
    }

    constructor (database: Store.Database)
      requires database.Contents() == EMPTY_DB
      ensures this.database == database && Contents() == EMPTY_FILE
    {
      this.database := database;
      schema, bindings := ObjectFree, [];
    }

    /** `admit_provider_custody`: open the path, bind an object-free file, compare the schema, verify
        the binding, commit. Every rejection rolls back. */
    method AdmitProviderCustody(path: Path, storage: Storage, env: Env, providerId: string, nonce: Bytes)
      returns (r: Result<(Store.EncryptedSecretStore, Store.SqliteAuditStore), CustodyError>)
      modifies this
      ensures var (after, outcome) := Admit(old(Contents()), path, storage, env.master.key, providerId, nonce);
              && Contents() == after
              && (if r.Success? then outcome.Success? else outcome == Failure(r.error))
      ensures r.Success? ==> r.value.0.env == env && r.value.0.database == r.value.1.database == database
    {
      if path != Plain {
        return Failure(Rejected);
      }
      if storage == Busy {
        return Failure(Unavailable);
      }
      if storage == NotADatabase {
        return Failure(Rejected);
      }
      var savedSchema, savedBindings := schema, bindings;
      if schema == ObjectFree {
        schema := Expected;
        var ciphertext := Encrypt(env.master.key, nonce, WITNESS, CustodyContext(providerId));
        bindings := [Binding(1, SCHEMA_VERSION, providerId, nonce, ciphertext)];
      }
      var verified := false;
      if schema == Expected {
        verified := VerifyBinding(bindings, env.master.key, providerId);
      }
      if !verified || storage == CommitFails {
        schema, bindings := savedSchema, savedBindings;
        return Failure(if verified then Unavailable else Rejected);
      }
      var store := new Store.EncryptedSecretStore(database, env);
      var audit := new Store.SqliteAuditStore(database);
      r := Success((store, audit));
    }
  }

  // ----- One admission ----------------------------------------------------------------------

  /** A binding names one key and one provider. */
  lemma BindingIsUnique(file: File, key: Bytes, providerId: string, otherKey: Bytes, otherProvider: string)
    requires BoundTo(file, key, providerId) && BoundTo(file, otherKey, otherProvider)
    ensures otherKey == key && otherProvider == providerId
  {
    var a :| |a| == NONCE_BYTES && file.bindings == [BindingFor(key, providerId, a)];
    var b :| |b| == NONCE_BYTES && file.bindings == [BindingFor(otherKey, otherProvider, b)];
    assert file.bindings[0] == BindingFor(key, providerId, a) == BindingFor(otherKey, otherProvider, b);
  }

  /** An admission succeeds exactly on an object-free file or one bound to the same key and provider,
      and changes only an object-free file, only by binding it. */
  lemma AdmissionDecides(file: File, path: Path, storage: Storage, key: Bytes, providerId: string, nonce: Bytes)
    requires |nonce| == NONCE_BYTES
    ensures var (after, outcome) := Admit(file, path, storage, key, providerId, nonce);
            && (outcome.Success? <==>
                  path == Plain && storage == Works && (file.schema == ObjectFree || BoundTo(file, key, providerId)))
            && (outcome.Success? ==> BoundTo(after, key, providerId))
            && (outcome.Failure? || file.schema != ObjectFree ==> after == file)
            && after.db == file.db
  {
    var prepared := File(Expected, [BindingFor(key, providerId, nonce)], file.db);
    assert prepared.bindings == [BindingFor(key, providerId, nonce)];
    assert BoundTo(prepared, key, providerId);
  }

  // ----- Admissions, calls and crashes ------------------------------------------------------

  /** When a process dies during an admission: not at all, before its commit, or after it. */
  datatype Death = Survives | DiesBeforeCommit | DiesAfterCommit

  datatype Handle = Handle(master: MasterKey, providerId: string)

  datatype Happening =
    | Admission(path: Path, storage: Storage, handle: Handle, nonce: Bytes, death: Death)
    | Use(handle: Handle, draw: Draw, request: Request)
    | StorageFault

  datatype World = World(file: File, handles: set<Handle>)

  ghost function NextWorld(p: Primitives, w: World, h: Happening): World
  {
    match h
    case Admission(path, storage, handle, nonce, death) =>
      var (after, outcome) := Admit(w.file, path, storage, handle.master.key, handle.providerId, nonce);
      if death == DiesBeforeCommit then w
      else World(after, if outcome.Success? && death == Survives then w.handles + {handle} else w.handles)
    case Use(handle, draw, request) =>
      if handle !in w.handles then w
      else w.(file := w.file.(db := Execute(Env(p, handle.master), draw, request, w.file.db).0))
    case StorageFault => w
  }

  ghost function WorldAt(p: Primitives, happenings: seq<Happening>, n: nat): World
    requires n <= |happenings|
  {
    if n == 0 then World(EMPTY_FILE, {}) else NextWorld(p, WorldAt(p, happenings, n - 1), happenings[n - 1])
  }

  ghost predicate HandlesBound(w: World)
  {
    forall h | h in w.handles :: BoundTo(w.file, h.master.key, h.providerId)
  }

  lemma NextKeepsBound(p: Primitives, w: World, h: Happening)
    requires HandlesBound(w)
    ensures HandlesBound(NextWorld(p, w, h)) && w.handles <= NextWorld(p, w, h).handles
    ensures w.file.schema != ObjectFree ==>
              NextWorld(p, w, h).file.schema == w.file.schema && NextWorld(p, w, h).file.bindings == w.file.bindings
  {
    hide Execute, BindingFor;
    var next := NextWorld(p, w, h);
    forall handle | handle in next.handles ensures BoundTo(next.file, handle.master.key, handle.providerId) {
      if handle in w.handles {
        assert BoundTo(w.file, handle.master.key, handle.providerId);
      }
    }
  }

  lemma {:induction false} HandlesStayBound(p: Primitives, happenings: seq<Happening>, n: nat)
    requires n <= |happenings|
    ensures HandlesBound(WorldAt(p, happenings, n))
  {
    hide NextWorld, HandlesBound;
    if n == 0 {
      NoHandles();
    } else {
      HandlesStayBound(p, happenings, n - 1);
      NextKeepsBound(p, WorldAt(p, happenings, n - 1), happenings[n - 1]);
    }
  }

  lemma NoHandles()
    ensures HandlesBound(World(EMPTY_FILE, {}))
  {
  }

  /** Whatever admissions, calls and crashes happened, all admitted handles have one key and provider. */
  lemma OneOwner(p: Primitives, happenings: seq<Happening>, n: nat, a: Handle, b: Handle)
    requires n <= |happenings| && a in WorldAt(p, happenings, n).handles && b in WorldAt(p, happenings, n).handles
    ensures a.master.key == b.master.key && a.providerId == b.providerId
  {
    hide WorldAt, BoundTo;
    HandlesStayBound(p, happenings, n);
    BindingIsUnique(WorldAt(p, happenings, n).file, a.master.key, a.providerId, b.master.key, b.providerId);
  }

  /** Once bound, a file keeps its schema and its binding row for good. */
  lemma {:induction false} BindingNeverChanges(p: Primitives, happenings: seq<Happening>, n: nat, m: nat)
    requires n <= m <= |happenings| && WorldAt(p, happenings, n).file.schema != ObjectFree
    ensures WorldAt(p, happenings, m).file.schema == WorldAt(p, happenings, n).file.schema
    ensures WorldAt(p, happenings, m).file.bindings == WorldAt(p, happenings, n).file.bindings
    decreases m
  {
    hide NextWorld;
    if n < m {
      BindingNeverChanges(p, happenings, n, m - 1);
      HandlesStayBound(p, happenings, m - 1);
      NextKeepsBound(p, WorldAt(p, happenings, m - 1), happenings[m - 1]);
    }
  }

  /** The key's version text is not bound: a key admitted under one version is admitted under another. */
  lemma KeyVersionIsNotBound(p: Primitives, key: Bytes, providerId: string, nonce: Bytes)
    requires |nonce| == NONCE_BYTES
    ensures var a, b := Handle(MasterKey(key, "local"), providerId), Handle(MasterKey(key, "rotated"), providerId);
            var happenings := [Admission(Plain, Works, a, nonce, Survives),
                               Admission(Plain, Works, b, nonce, Survives)];
            WorldAt(p, happenings, 2).handles == {a, b}
  {
    var a, b := Handle(MasterKey(key, "local"), providerId), Handle(MasterKey(key, "rotated"), providerId);
    var happenings := [Admission(Plain, Works, a, nonce, Survives), Admission(Plain, Works, b, nonce, Survives)];
    AdmissionDecides(EMPTY_FILE, Plain, Works, key, providerId, nonce);
    AdmissionDecides(WorldAt(p, happenings, 1).file, Plain, Works, key, providerId, nonce);
    assert WorldAt(p, happenings, 1).handles == {a};
  }

  // ----- Custody and store together ---------------------------------------------------------

  /** The calls of the first `n` happenings that went through an admitted handle. */
  ghost function EventsAt(p: Primitives, happenings: seq<Happening>, n: nat): seq<Event>
    requires n <= |happenings|
  {
    if n == 0 then []
    else
      var h := happenings[n - 1];
      EventsAt(p, happenings, n - 1)
      + if h.Use? && h.handle in WorldAt(p, happenings, n - 1).handles then
          [Called(h.handle.master.version, h.draw, h.request)]
        else []
  }

  lemma NextIsRunStep(p: Primitives, w: World, h: Happening, key: Bytes)
    requires forall handle | handle in w.handles :: handle.master.key == key
    ensures NextWorld(p, w, h).file.db
            == if h.Use? && h.handle in w.handles then
                 Step(Provider(p, key), Called(h.handle.master.version, h.draw, h.request), w.file.db).0
               else w.file.db
  {
    hide Execute, BoundTo;
  }

  lemma {:induction false} HandlesGrow(p: Primitives, happenings: seq<Happening>, n: nat, m: nat)
    requires n <= m <= |happenings|
    ensures WorldAt(p, happenings, n).handles <= WorldAt(p, happenings, m).handles
    ensures EventsAt(p, happenings, n) <= EventsAt(p, happenings, m)
    decreases m
  {
    hide NextWorld;
    if n < m {
      HandlesGrow(p, happenings, n, m - 1);
      HandlesStayBound(p, happenings, m - 1);
      NextKeepsBound(p, WorldAt(p, happenings, m - 1), happenings[m - 1]);
    }
  }

  /** The tables behind the admitted handles are those of one run under one key. */
  lemma {:induction false} CustodyIsOneRun(p: Primitives, happenings: seq<Happening>, n: nat, key: Bytes)
    requires n <= |happenings|
    requires forall handle | handle in WorldAt(p, happenings, n).handles :: handle.master.key == key
    ensures var events := EventsAt(p, happenings, n);
            WorldAt(p, happenings, n).file.db == TablesAt(Provider(p, key), events, |events|)
  {
    hide NextWorld, Step;
    if n > 0 {
      HandlesGrow(p, happenings, n - 1, n);
      CustodyIsOneRun(p, happenings, n - 1, key);
      var h, w, events := happenings[n - 1], WorldAt(p, happenings, n - 1), EventsAt(p, happenings, n - 1);
      NextIsRunStep(p, w, h, key);
      if h.Use? && h.handle in w.handles {
        TablesAfterOneMore(Provider(p, key), events, Called(h.handle.master.version, h.draw, h.request));
      } else {
        assert events + [] == events;
      }
    }
  }

  /** The owner's key at a time when someone was admitted. */
  lemma OwnerKey(p: Primitives, happenings: seq<Happening>, n: nat, handle: Handle)
    requires n <= |happenings| && handle in WorldAt(p, happenings, n).handles
    ensures forall other | other in WorldAt(p, happenings, n).handles :: other.master.key == handle.master.key
  {
    forall other | other in WorldAt(p, happenings, n).handles ensures other.master.key == handle.master.key {
      OneOwner(p, happenings, n, handle, other);
    }
  }

  /** No call through an admitted handle ever meets a tampered or unreadable row, whichever keys and
      provider ids were presented before. */
  lemma AdmittedCallsMeetNoTampering(p: Primitives, happenings: seq<Happening>, n: nat)
    requires Lawful(p) && n < |happenings| && happenings[n].Use?
    requires happenings[n].handle in WorldAt(p, happenings, n).handles
    ensures var h := happenings[n];
            var outcome := Execute(Env(p, h.handle.master), h.draw, h.request, WorldAt(p, happenings, n).file.db).1;
            outcome.Failure? ==> outcome.error in PossibleErrors(h.request)
  {
    hide WorldAt, TablesAt, PossibleErrors, PlanOf, Commit;
    var h, events := happenings[n], EventsAt(p, happenings, n);
    var provider, e := Provider(p, h.handle.master.key), Called(h.handle.master.version, h.draw, h.request);
    OwnerKey(p, happenings, n, h.handle);
    CustodyIsOneRun(p, happenings, n, h.handle.master.key);
    TablesAtPrefix(provider, events, events + [e], |events|);
    IntegrityErrorsAreUnreachable(provider, events + [e], |events|);
  }

  /** Every version row ever stored stays, at most gets revoked, and decrypts under any handle
      admitted later to exactly the bytes it decrypted to before. */
  lemma StoredBytesSurvive(p: Primitives, happenings: seq<Happening>, n: nat, m: nat, handle: Handle, k: VersionKey)
    requires Lawful(p) && n <= m <= |happenings| && handle in WorldAt(p, happenings, m).handles
    requires k in WorldAt(p, happenings, n).file.db.versions
    ensures k in WorldAt(p, happenings, m).file.db.versions
    ensures RowFollows(Env(p, handle.master), k, WorldAt(p, happenings, n).file.db.versions[k],
                       WorldAt(p, happenings, m).file.db.versions[k])
  {
    hide WorldAt, TablesAt, MetadataFromRow, DecryptRow;
    var provider := Provider(p, handle.master.key);
    var a, b := EventsAt(p, happenings, n), EventsAt(p, happenings, m);
    OwnerKey(p, happenings, m, handle);
    HandlesGrow(p, happenings, n, m);
    CustodyIsOneRun(p, happenings, n, handle.master.key);
    CustodyIsOneRun(p, happenings, m, handle.master.key);
    TablesAtPrefix(provider, a, b, |a|);
    HistoryIsAppendOnly(provider, b, |a|, |b|, handle.master.version);
  }

  /** Every row behind the admitted handles decrypts, under any of them, to exactly the value of the one
      create, rotate or generate call that inserted it, whichever handle that call came through. */
  lemma EveryRowHoldsItsCall(p: Primitives, happenings: seq<Happening>, n: nat, handle: Handle, k: VersionKey)
    requires Lawful(p) && n <= |happenings| && handle in WorldAt(p, happenings, n).handles
    requires k in WorldAt(p, happenings, n).file.db.versions
    ensures var events := EventsAt(p, happenings, n);
            exists j: nat, original :: j < |events| && StoredAt(Provider(p, handle.master.key), events, j, original)
              && RowHolds(Env(p, handle.master), k, WorldAt(p, happenings, n).file.db.versions[k], original)
  {
    hide WorldAt, TablesAt, MetadataFromRow, DecryptRow, StoredAt, RowHolds;
    var provider, events := Provider(p, handle.master.key), EventsAt(p, happenings, n);
    OwnerKey(p, happenings, n, handle);
    CustodyIsOneRun(p, happenings, n, handle.master.key);
    EveryRowHoldsWhatWasStored(provider, events, |events|, k, handle.master.version);
  }
}
