/**
 Envelope encryption of credentials: a data key per record, wrapped by a key-encryption
 key, both layers authenticated together with the scope they are bound to. The cipher is
 ideal: a box opens only under the key and the associated data it was made with.
 */
module CredentialEnvelope {
  import opened Prelude
  import opened CredentialBinding

  /** 256 bits of key. */
  type Key = nat

  /** A stored blob: too short to hold a nonce, bytes no key ever authenticated, or a sealed value. */
  datatype Blob<T> = Truncated | Altered | Box(key: Key, nonce: nat, plain: T, aad: string)

  datatype Error = KeyNotHeld | BlobTruncated | DoesNotDecrypt

  function Encrypt<T>(key: Key, nonce: nat, plain: T, aad: string): Blob<T> {
    Box(key, nonce, plain, aad)
  }

  function Decrypt<T>(key: Key, blob: Blob<T>, aad: string): Result<T, Error> {
    match blob
    case Truncated => Err(BlobTruncated)
    case Altered => Err(DoesNotDecrypt)
    case Box(k, _, plain, a) => if k == key && a == aad then Ok(plain) else Err(DoesNotDecrypt)
  }

  // ----- the key ring -----

  /** Key ids with their material; the first one wraps, any of them unwraps. */
  type Ring = seq<(string, Key)>

  predicate UsableRing(ring: Ring) {
    ring != [] && forall i, j :: 0 <= i < j < |ring| ==> ring[i].0 != ring[j].0
  }

  function Find(ring: Ring, id: string): Option<Key> {
    if ring == [] then None
    else if ring[0].0 == id then Some(ring[0].1)
    else Find(ring[1..], id)
  }

  // ----- sealing -----

  const LEGACY_AAD_VERSION := 1
  const AAD_VERSION := 2

  datatype Sealed = Sealed(keyVersion: string, wrappedKey: Blob<Key>, ciphertext: Blob<string>, aadVersion: int)

  /** The random choices of one seal or re-wrap. */
  datatype Random = Random(dek: Key, wrapNonce: nat, sealNonce: nat)

  function Seal(secret: string, tenant: string, connection: nat, ring: Ring, rnd: Random): Sealed
    requires ring != []
  {
    var (id, kek) := ring[0];
    Sealed(id,
           Encrypt(kek, rnd.wrapNonce, rnd.dek, KekAad(tenant, id, Some(connection))),
           Encrypt(rnd.dek, rnd.sealNonce, secret, DekAad(tenant, Some(connection))),
           AAD_VERSION)
  }

  /** The one place the legacy binding is chosen, from the stored version alone. */
  function Binding(sealed: Sealed, connection: nat): Option<nat> {
    if sealed.aadVersion == LEGACY_AAD_VERSION then None else Some(connection)
  }

  function UnwrapDek(sealed: Sealed, tenant: string, connection: nat, ring: Ring): Result<Key, Error> {
    match Find(ring, sealed.keyVersion)
    case None => Err(KeyNotHeld)
    case Some(kek) => Decrypt(kek, sealed.wrappedKey, KekAad(tenant, sealed.keyVersion, Binding(sealed, connection)))
  }

  function Unseal(sealed: Sealed, tenant: string, connection: nat, ring: Ring): Result<string, Error> {
    match UnwrapDek(sealed, tenant, connection, ring)
    case Err(e) => Err(e)
    case Ok(dek) => Decrypt(dek, sealed.ciphertext, DekAad(tenant, Binding(sealed, connection)))
  }

  /** The record moved onto the active key, or nothing when it is there already. */
  function Rewrap(sealed: Sealed, tenant: string, connection: nat, ring: Ring, rnd: Random): Result<Option<Sealed>, Error>
    requires ring != []
  {
    var (id, kek) := ring[0];
    if sealed.keyVersion == id then Ok(None)
    else
      match UnwrapDek(sealed, tenant, connection, ring)
      case Err(e) => Err(e)
      case Ok(dek) =>
        Ok(Some(sealed.(keyVersion := id, wrappedKey := Encrypt(kek, rnd.wrapNonce, dek, KekAad(tenant, id, Binding(sealed, connection))))))
  }

  /** A record not on the current binding, sealed anew onto it, or nothing when it is there already. */
  function Reseal(sealed: Sealed, tenant: string, connection: nat, ring: Ring, rnd: Random): Result<Option<Sealed>, Error>
    requires ring != []
  {
    if sealed.aadVersion == AAD_VERSION then Ok(None)
    else
      match Unseal(sealed, tenant, connection, ring)
      case Err(e) => Err(e)
      case Ok(secret) => Ok(Some(Seal(secret, tenant, connection, ring, rnd)))
  }

  // ----- what a record is bound to -----

  /** The record holds `secret` for this tenant and connection, wrapped by a key the ring holds. */
  ghost predicate SealedFor(sealed: Sealed, tenant: string, connection: nat, secret: string, ring: Ring) {
    var b := Binding(sealed, connection);
    && sealed.wrappedKey.Box? && sealed.ciphertext.Box?
    && Find(ring, sealed.keyVersion) == Some(sealed.wrappedKey.key)
    && sealed.wrappedKey.aad == KekAad(tenant, sealed.keyVersion, b)
    && sealed.ciphertext.key == sealed.wrappedKey.plain
    && sealed.ciphertext.aad == DekAad(tenant, b)
    && sealed.ciphertext.plain == secret
  }

  /** A record sealed for one tenant and connection on the current binding unseals under exactly that tenant, that connection, and a ring holding its very key, and then to the secret sealed. */
  lemma UnsealsOnlyWhereSealed(secret: string, t: string, c: nat, ring: Ring, rnd: Random, u: string, d: nat, other: Ring, x: string)
    requires ring != []
    ensures Unseal(Seal(secret, t, c, ring, rnd), u, d, other) == Ok(x) <==>
      u == t && d == c && Find(other, ring[0].0) == Some(ring[0].1) && x == secret
  {
    KekAadInjective(t, ring[0].0, c, u, ring[0].0, d);
    DekAadInjective(t, c, u, d);
  }

  /** A legacy record is bound to its tenant alone: it unseals under every connection of that tenant, and under no other tenant. */
  lemma LegacyUnsealsPerTenant(sealed: Sealed, t: string, c: nat, secret: string, ring: Ring, u: string, d: nat)
    requires sealed.aadVersion == LEGACY_AAD_VERSION && SealedFor(sealed, t, c, secret, ring)
    ensures Unseal(sealed, u, d, ring) == (if u == t then Ok(secret) else Err(DoesNotDecrypt))
  {
    LegacyTenantDetermined(t, u, sealed.keyVersion);
  }

  /** Relabelling a current record as legacy makes it unseal exactly for a tenant spelled like its length-prefixed scope. */
  lemma RelabelledUnsealsIff(secret: string, t: string, c: nat, ring: Ring, rnd: Random, u: string, d: nat)
    requires ring != []
    ensures var relabelled := Seal(secret, t, c, ring, rnd).(aadVersion := LEGACY_AAD_VERSION);
      Unseal(relabelled, u, d, ring).Ok? <==> u == Scope(t, Some(c))
  {
    LegacyMeetsCurrentIff(u, t, c);
  }

  /** Why a record does not unseal: its key is not held; or a layer that is reached is too short to hold anything; or one does not open. */
  lemma UnsealRefusals(sealed: Sealed, t: string, c: nat, ring: Ring)
    ensures var legacy := sealed.aadVersion == 1;
      var scope := if legacy then None else Some(c);
      var held := exists i :: 0 <= i < |ring| && ring[i].0 == sealed.keyVersion;
      var unwraps := UnwrapDek(sealed, t, c, ring);
      && (Unseal(sealed, t, c, ring) == Err(KeyNotHeld) <==> !held)
      && (Unseal(sealed, t, c, ring) == Err(BlobTruncated) <==> held && (sealed.wrappedKey.Truncated? || (unwraps.Ok? && sealed.ciphertext.Truncated?)))
      && (unwraps.Ok? ==> sealed.wrappedKey.Box? && sealed.wrappedKey.aad == KekAad(t, sealed.keyVersion, scope) && unwraps.value == sealed.wrappedKey.plain)
  {
    FindIffListed(ring, sealed.keyVersion);
  }

  lemma {:induction false} FindIffListed(ring: Ring, id: string)
    ensures Find(ring, id).Some? <==> exists i :: 0 <= i < |ring| && ring[i].0 == id
  {
    if ring != [] {
      FindIffListed(ring[1..], id);
      assert forall i :: 0 < i < |ring| ==> ring[i] == ring[1..][i - 1];
      if i :| 0 <= i < |ring[1..]| && ring[1..][i].0 == id {
        assert ring[i + 1].0 == id;
      }
    }
  }

  lemma SealedUnseals(sealed: Sealed, t: string, c: nat, secret: string, ring: Ring)
    requires SealedFor(sealed, t, c, secret, ring)
    ensures Unseal(sealed, t, c, ring) == Ok(secret) && UnwrapDek(sealed, t, c, ring) == Ok(sealed.ciphertext.key)
  {
  }

  /** A re-wrap never touches the ciphertext or the binding, legacy records included, and keeps the secret. */
  lemma RewrapKeepsSecret(sealed: Sealed, t: string, c: nat, secret: string, ring: Ring, rnd: Random)
    requires ring != [] && SealedFor(sealed, t, c, secret, ring)
    ensures var r := Rewrap(sealed, t, c, ring, rnd);
      && r.Ok?
      && (r.value.None? <==> sealed.keyVersion == ring[0].0)
      && (r.value.Some? ==>
            && r.value.value.keyVersion == ring[0].0
            && r.value.value.ciphertext == sealed.ciphertext && r.value.value.aadVersion == sealed.aadVersion
            && SealedFor(r.value.value, t, c, secret, ring))
  {
    SealedUnseals(sealed, t, c, secret, ring);
  }

  lemma ResealKeepsSecret(sealed: Sealed, t: string, c: nat, secret: string, ring: Ring, rnd: Random)
    requires ring != [] && SealedFor(sealed, t, c, secret, ring)
    ensures var r := Reseal(sealed, t, c, ring, rnd);
      && r.Ok?
      && (r.value.None? <==> sealed.aadVersion == AAD_VERSION)
      && (r.value.Some? ==>
            && r.value.value.keyVersion == ring[0].0 && r.value.value.aadVersion == AAD_VERSION
            && SealedFor(r.value.value, t, c, secret, ring))
  {
    SealedUnseals(sealed, t, c, secret, ring);
  }

  // ----- migration on read -----

  /** `_migrate_sealed`, of which the first `landed` writes reach the row. */
  function Migrated(sealed: Sealed, tenant: string, connection: nat, ring: Ring, rnd: Random, landed: nat): Sealed
    requires ring != []
  {
    match Rewrap(sealed, tenant, connection, ring, rnd)
    case Err(_) => sealed
    case Ok(moved) =>
      var current := if moved.Some? then moved.value else sealed;
      var row := if landed > 0 then current else sealed;
      match Reseal(current, tenant, connection, ring, rnd)
      case Err(_) => row
      case Ok(resealed) => if resealed.Some? && landed > 1 then resealed.value else row
  }

  /** What stands in the row after each write: none landed, the record as it was; one, the secret still under its old ciphertext and binding when a re-wrap was due. */
  lemma MigrationLands(sealed: Sealed, t: string, c: nat, secret: string, ring: Ring, rnd: Random)
    requires ring != [] && SealedFor(sealed, t, c, secret, ring)
    ensures Migrated(sealed, t, c, ring, rnd, 0) == sealed
    ensures var one := Migrated(sealed, t, c, ring, rnd, 1);
      one.keyVersion == ring[0].0 && one.ciphertext == sealed.ciphertext && one.aadVersion == sealed.aadVersion
  {
    RewrapKeepsSecret(sealed, t, c, secret, ring, rnd);
    var moved := Rewrap(sealed, t, c, ring, rnd).value;
    ResealKeepsSecret(if moved.Some? then moved.value else sealed, t, c, secret, ring, rnd);
  }

  /** One migration reaches the active key and the current binding with the secret unchanged; a second changes nothing; and one that stops half-way has lost nothing. */
  lemma MigrationConverges(sealed: Sealed, t: string, c: nat, secret: string, ring: Ring, rnd: Random, again: Random, landed: nat)
    requires ring != [] && SealedFor(sealed, t, c, secret, ring)
    ensures SealedFor(Migrated(sealed, t, c, ring, rnd, landed), t, c, secret, ring)
    ensures var done := Migrated(sealed, t, c, ring, rnd, 2);
      && done.keyVersion == ring[0].0 && done.aadVersion == AAD_VERSION
      && Migrated(done, t, c, ring, again, landed) == done
  {
    RewrapKeepsSecret(sealed, t, c, secret, ring, rnd);
    var moved := Rewrap(sealed, t, c, ring, rnd).value;
    var current := if moved.Some? then moved.value else sealed;
    ResealKeepsSecret(current, t, c, secret, ring, rnd);
    var done := Migrated(sealed, t, c, ring, rnd, 2);
    RewrapKeepsSecret(done, t, c, secret, ring, again);
  }
}
