/** Cryptography at its interfaces: a symbolic AEAD, and the hash and signature functions as
    arbitrary functions with the few laws the provider relies on. */
module Crypto {
  import opened Wrappers
  import opened Json
  import opened JsonObjects
  import opened Models

  const ALGORITHM := "AES-256-GCM"
  const DELEGATION_KEY_ALGORITHM := "ed25519"
  const MAX_PUBLIC_PEM_CHARS := 8192
  const MAX_KEY_ID_CHARS := 128

  datatype MasterKey = MasterKey(key: Bytes, version: string)

  /** A ciphertext column: the output of one seal, or bytes that no seal produced. */
  datatype Ciphertext =
    | Sealed(key: Bytes, nonce: Bytes, plaintext: Bytes, aad: string)
    | Opaque(bytes: Bytes)

  function CiphertextLength(c: Ciphertext): nat
  {
    match c
    case Sealed(_, _, plaintext, _) => |plaintext| + 16
    case Opaque(bytes) => |bytes|
  }

  function Encrypt(key: Bytes, nonce: Bytes, plaintext: Bytes, aad: string): Ciphertext
  {
    Sealed(key, nonce, plaintext, aad)
  }

  function Decrypt(key: Bytes, nonce: Bytes, c: Ciphertext, aad: string): (r: Option<Bytes>)
    ensures forall p :: r == Some(p) <==> c == Sealed(key, nonce, p, aad)
  {
    if c.Sealed? && c.key == key && c.nonce == nonce && c.aad == aad then Some(c.plaintext) else None
  }

  /** SHA-256, Ed25519 and PEM as functions the provider only calls. */
  datatype Primitives = Primitives(
    fingerprint: Bytes -> string,
    privatePem: Bytes -> Bytes,
    loadPrivate: Bytes -> Option<Bytes>,
    publicPem: Bytes -> string,
    sha256Hex: string -> string)

  ghost predicate Lawful(p: Primitives) {
    && (forall seed :: p.loadPrivate(p.privatePem(seed)) == Some(seed))
    && (forall seed :: |p.publicPem(seed)| <= MAX_PUBLIC_PEM_CHARS)
    && (forall text :: |p.sha256Hex(text)| == 64)
  }

  datatype Env = Env(primitives: Primitives, master: MasterKey)

  function DelegationKeyId(p: Primitives, publicPem: string): string
  {
    "gateway-" + p.sha256Hex(publicPem)
  }

  /** `_delegation_material_matches`. */
  predicate MaterialMatches(p: Primitives, privatePem: Bytes, publicPem: string, keyId: string)
  {
    match p.loadPrivate(privatePem)
    case None => false
    case Some(seed) => p.publicPem(seed) == publicPem && DelegationKeyId(p, publicPem) == keyId
  }

  // ----- Associated data --------------------------------------------------------------------

  const AAD_NAMES: seq<string> := [
    "algorithm", "created_at", "key_fingerprint", "key_version", "labels", "revoked_at",
    "secret_id", "status", "version_id", "version_number", "workspace_id"]

  function AadValues(m: Metadata): (values: seq<Value>)
    ensures |values| == |AAD_NAMES|
  {
    [ TextValue(m.algorithm), TextValue(m.createdAt), TextValue(m.keyFingerprint), TextValue(m.keyVersion),
      LabelsValue(m.labels),
      if m.revokedAt.None? then NullValue else TextValue(m.revokedAt.value),
      TextValue(m.secretId), TextValue(StatusText(m.status)), TextValue(m.versionId),
      NumberValue(m.versionNumber), TextValue(m.workspaceId) ]
  }

  /** `_aad`: the eleven metadata fields as one canonical JSON object. */
  function Aad(m: Metadata): string
  {
    DumpRecord(AAD_NAMES, AadValues(m))
  }

  /** The custody witness is sealed under a JSON array. */
  function CustodyContext(providerId: string): string
  {
    ['['] + DumpString("cpk-secrets-provider-custody", ",1," + DumpString(providerId, "]"))
  }

  lemma AadValuesInjective(a: Metadata, b: Metadata)
    requires AadValues(a) == AadValues(b)
    ensures a == b
  {
    var x, y := AadValues(a), AadValues(b);
    assert x[0] == y[0] && x[1] == y[1] && x[2] == y[2] && x[3] == y[3] && x[4] == y[4] && x[5] == y[5];
    assert x[6] == y[6] && x[7] == y[7] && x[8] == y[8] && x[9] == y[9] && x[10] == y[10];
    assert ParseStatus(StatusText(a.status)) == Some(a.status);
    assert ParseStatus(StatusText(b.status)) == Some(b.status);
  }

  /** Equal associated data means equal metadata: all eleven fields, null against text included. */
  lemma AadInjective(a: Metadata, b: Metadata)
    requires Aad(a) == Aad(b)
    ensures a == b
  {
    RecordInjective(AAD_NAMES, AadValues(a), AadValues(b));
    AadValuesInjective(a, b);
  }

  lemma AadIsNoCustodyContext(m: Metadata, providerId: string)
    ensures Aad(m) != CustodyContext(providerId)
  {
    assert Aad(m)[0] == '{' && CustodyContext(providerId)[0] == '[';
  }
}
