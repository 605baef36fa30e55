/** Stored credentials over runs of key rotations, reads and writes. */
module CredentialStore {
  import opened Prelude
  import opened CredentialEnvelope

  /** A record's owner: tenant and connection. */
  datatype Owner = Owner(tenant: string, connection: nat)

  /** A stored record, and the secret it was given. */
  datatype Entry = Entry(sealed: Sealed, secret: string)

  datatype World = World(ring: Ring, entries: map<Owner, Entry>)

  datatype Step =
    | Rotate(id: string, key: Key)
    | Promote(index: nat)
    | Drop(index: nat)
    | Put(owner: Owner, secret: string, rnd: Random)
    | Clear(owner: Owner)
    | Read(owner: Owner, rnd: Random, landed: nat)

  predicate Named(ring: Ring, id: string) {
    exists i :: 0 <= i < |ring| && ring[i].0 == id
  }

  /**
   Operators put a new key first under an id not in use, move a listed key to the front, or
   drop a key once no record names it and another remains. A read migrates lazily, and any
   number of its two writes may land.
   */
  function Next(w: World, step: Step): World {
    match step
    case Rotate(id, key) => if Named(w.ring, id) then w else w.(ring := [(id, key)] + w.ring)
    case Promote(i) => if i < |w.ring| then w.(ring := [w.ring[i]] + Without(w.ring, i)) else w
    case Drop(i) =>
      if i < |w.ring| && |w.ring| > 1 && (forall o :: o in w.entries ==> w.entries[o].sealed.keyVersion != w.ring[i].0)
      then w.(ring := Without(w.ring, i)) else w
    case Put(o, secret, rnd) =>
      if w.ring == [] then w
      else w.(entries := w.entries[o := Entry(Seal(secret, o.tenant, o.connection, w.ring, rnd), secret)])
    case Clear(o) => w.(entries := w.entries - {o})
    case Read(o, rnd, landed) =>
      if o !in w.entries || w.ring == [] then w
      else
        var e := w.entries[o];
        w.(entries := w.entries[o := e.(sealed := Migrated(e.sealed, o.tenant, o.connection, w.ring, rnd, landed))])
  }

  function Run(w: World, steps: seq<Step>): World
    decreases |steps|
  {
    if steps == [] then w else Run(Next(w, steps[0]), steps[1..])
  }

  ghost predicate Holds(ring: Ring, o: Owner, e: Entry) {
    SealedFor(e.sealed, o.tenant, o.connection, e.secret, ring)
  }

  ghost predicate Inv(w: World) {
    && UsableRing(w.ring)
    && forall o :: o in w.entries ==> Holds(w.ring, o, w.entries[o])
  }

  /** With distinct ids, looking a key up finds the material listed beside it. */
  lemma {:induction false} FindListed(ring: Ring, id: string)
    requires ring == [] || UsableRing(ring)
    ensures forall i :: 0 <= i < |ring| && ring[i].0 == id ==> Find(ring, id) == Some(ring[i].1)
    ensures !Named(ring, id) ==> Find(ring, id) == None
  {
    if ring != [] {
      FindListed(ring[1..], id);
      if !Named(ring, id) {
        assert ring[0].0 != id;
        assert forall i :: 0 <= i < |ring[1..]| ==> ring[1..][i] == ring[i + 1];
      }
      forall i | 0 <= i < |ring| && ring[i].0 == id
        ensures Find(ring, id) == Some(ring[i].1)
      {
        if i > 0 {
          assert ring[1..][i - 1] == ring[i];
        }
      }
    }
  }

  /** Two rings that list the same entry for an id find the same key. */
  lemma FindKept(before: Ring, after: Ring, id: string)
    requires UsableRing(before) && UsableRing(after)
    requires forall i :: 0 <= i < |before| && before[i].0 == id ==> before[i] in after
    requires Find(before, id).Some?
    ensures Find(after, id) == Find(before, id)
  {
    FindListed(before, id);
    var i :| 0 <= i < |before| && before[i].0 == id;
    var j :| 0 <= j < |after| && after[j] == before[i];
    FindListed(after, id);
  }

  /** Every key that a record names is listed after the step as it was before. */
  ghost predicate KeepsNamed(w: World, after: Ring) {
    forall o :: o in w.entries ==>
      forall i :: 0 <= i < |w.ring| && w.ring[i].0 == w.entries[o].sealed.keyVersion ==> w.ring[i] in after
  }

  lemma RotateStep(w: World, id: string, key: Key)
    requires Inv(w)
    ensures var after := Next(w, Rotate(id, key)).ring; UsableRing(after) && KeepsNamed(w, after)
  {
    var after := Next(w, Rotate(id, key)).ring;
    if !Named(w.ring, id) {
      assert forall i :: 0 <= i < |w.ring| ==> w.ring[i] == after[i + 1];
    }
  }

  lemma PromoteStep(w: World, k: nat)
    requires Inv(w)
    ensures var after := Next(w, Promote(k)).ring; UsableRing(after) && KeepsNamed(w, after)
  {
    var r := w.ring;
    if k < |r| {
      var rest := Without(r, k);
      WithoutKeepsOthers(r, k);
      forall i | 0 <= i < |r|
        ensures r[i] in [r[k]] + rest
      {
        assert i != k ==> r[i] in rest;
      }
    }
  }

  lemma DropStep(w: World, k: nat)
    requires Inv(w)
    ensures var after := Next(w, Drop(k)).ring; UsableRing(after) && KeepsNamed(w, after)
  {
    if Next(w, Drop(k)) != w {
      WithoutKeepsOthers(w.ring, k);
    }
  }

  function Without(r: Ring, k: nat): Ring
    requires k < |r|
  {
    r[..k] + r[k + 1..]
  }

  lemma WithoutKeepsOthers(r: Ring, k: nat)
    requires UsableRing(r) && k < |r|
    ensures |Without(r, k)| > 0 ==> UsableRing(Without(r, k))
    ensures forall e :: e in Without(r, k) ==> e.0 != r[k].0
    ensures forall i :: 0 <= i < |r| && i != k ==> r[i] in Without(r, k)
  {
    var rest := Without(r, k);
    forall i | 0 <= i < |r| && i != k
      ensures r[i] in rest
    {
      if i < k { assert rest[i] == r[i]; } else { assert rest[i - 1] == r[i]; }
    }
  }

  lemma StepKeepsInv(w: World, step: Step)
    requires Inv(w)
    ensures Inv(Next(w, step))
  {
    var w' := Next(w, step);
    match step
    case Put(o, secret, rnd) =>
      assert forall p :: p in w.entries ==> Holds(w.ring, p, w.entries[p]);
    case Clear(o) =>
    case Read(o, rnd, landed) =>
      if o in w.entries {
        var e := w.entries[o];
        assert Holds(w.ring, o, e);
        MigrationConverges(e.sealed, o.tenant, o.connection, e.secret, w.ring, rnd, rnd, landed);
      }
    case Rotate(id, key) =>
      RotateStep(w, id, key);
      StillHeld(w, w'.ring);
    case Promote(i) =>
      PromoteStep(w, i);
      StillHeld(w, w'.ring);
    case Drop(i) =>
      DropStep(w, i);
      StillHeld(w, w'.ring);
  }

  lemma StillHeld(w: World, after: Ring)
    requires Inv(w) && UsableRing(after) && KeepsNamed(w, after)
    ensures forall o :: o in w.entries ==> Holds(after, o, w.entries[o])
  {
    forall o | o in w.entries
      ensures Holds(after, o, w.entries[o])
    {
      assert Holds(w.ring, o, w.entries[o]);
      FindKept(w.ring, after, w.entries[o].sealed.keyVersion);
    }
  }

  lemma {:induction false} RunKeepsInv(w: World, steps: seq<Step>)
    requires Inv(w)
    ensures Inv(Run(w, steps))
    decreases |steps|
  {
    if steps != [] {
      StepKeepsInv(w, steps[0]);
      RunKeepsInv(Next(w, steps[0]), steps[1..]);
    }
  }

  /** Over any run of rotations, writes and lazy reads, in any order and with writes that never land, every stored record still unseals to the secret it was given. Records from before connections existed may be among the first ones. */
  lemma NoSecretIsLost(w: World, steps: seq<Step>, o: Owner)
    requires Inv(w) && o in Run(w, steps).entries
    ensures var w' := Run(w, steps); Unseal(w'.entries[o].sealed, o.tenant, o.connection, w'.ring) == Ok(w'.entries[o].secret)
  {
    RunKeepsInv(w, steps);
    var w' := Run(w, steps);
    assert Holds(w'.ring, o, w'.entries[o]);
  }

  /** Once a record has been read with both writes landing, it names the active key and carries the current binding, and every other record is as it was. */
  lemma ReadMigrates(w: World, steps: seq<Step>, o: Owner, rnd: Random)
    requires Inv(w) && o in Run(w, steps).entries
    ensures var before := Run(w, steps);
      var after := Next(before, Read(o, rnd, 2));
      && before.ring != [] && after.entries.Keys == before.entries.Keys
      && after.entries[o].sealed.keyVersion == before.ring[0].0 && after.entries[o].sealed.aadVersion == AAD_VERSION
      && after.entries[o].secret == before.entries[o].secret
      && (forall p :: p in before.entries && p != o ==> after.entries[p] == before.entries[p])
  {
    RunKeepsInv(w, steps);
    var before := Run(w, steps);
    var e := before.entries[o];
    assert Holds(before.ring, o, e);
    MigrationConverges(e.sealed, o.tenant, o.connection, e.secret, before.ring, rnd, rnd, 2);
  }

  /** So once every record has moved off a key, dropping it is safe and it is gone. */
  lemma UnusedKeyCanGo(w: World, i: nat)
    requires Inv(w) && i < |w.ring| && |w.ring| > 1
    requires forall o :: o in w.entries ==> w.entries[o].sealed.keyVersion == w.ring[0].0
    requires i > 0
    ensures Inv(Next(w, Drop(i))) && !Named(Next(w, Drop(i)).ring, w.ring[i].0)
  {
    StepKeepsInv(w, Drop(i));
    WithoutKeepsOthers(w.ring, i);
    assert w.ring[0].0 != w.ring[i].0;
    assert Next(w, Drop(i)).ring == Without(w.ring, i);
  }

  // ----- one tenant's table -----

  /** The sealed rows of one tenant, by connection. */
  class CredentialTable {
    const tenant: string
    var rows: map<nat, Sealed>

    constructor (tenant: string)
      ensures this.tenant == tenant && rows == map[]
    {
      this.tenant, rows := tenant, map[];
    }

    /** Store or replace a credential; refused when there is no key to encrypt with. */
    method Set(connection: nat, secret: string, ring: Ring, rnd: Random) returns (stored: bool)
      modifies this
      ensures stored <==> ring != []
      ensures rows == if stored then old(rows)[connection := Seal(secret, tenant, connection, ring, rnd)] else old(rows)
    {
      if ring == [] {
        return false;
      }
      rows := rows[connection := Seal(secret, tenant, connection, ring, rnd)];
      stored := true;
    }

    /** Move a row onto the active key, then onto the current binding. */
    method MigrateSealed(connection: nat, ring: Ring, rnd: Random)
      requires connection in rows && ring != []
      modifies this
      ensures rows == old(rows)[connection := Migrated(old(rows)[connection], tenant, connection, ring, rnd, 2)]
    {
      var current := rows[connection];
      var rewrapped := Rewrap(current, tenant, connection, ring, rnd);
      if rewrapped.Err? {
        return;
      }
      if rewrapped.value.Some? {
        current := rewrapped.value.value;
        rows := rows[connection := current];
      }
      var resealed := Reseal(current, tenant, connection, ring, rnd);
      if resealed.Ok? && resealed.value.Some? {
        rows := rows[connection := resealed.value.value];
      }
    }

    /** Unseal one credential for one call, migrating the row behind it; any failure yields none and leaves the row. */
    method Fetch(connection: nat, ring: Ring, rnd: Random) returns (secret: Option<string>)
      modifies this
      ensures connection !in old(rows) || ring == [] ==> secret == None && rows == old(rows)
      ensures connection in old(rows) && ring != [] ==>
        match Unseal(old(rows)[connection], tenant, connection, ring)
        case Err(_) => secret == None && rows == old(rows)
        case Ok(s) => secret == Some(s) && rows == old(rows)[connection := Migrated(old(rows)[connection], tenant, connection, ring, rnd, 2)]
    {
      if connection !in rows || ring == [] {
        return None;
      }
      var outcome := Unseal(rows[connection], tenant, connection, ring);
      if outcome.Err? {
        return None;
      }
      MigrateSealed(connection, ring, rnd);
      secret := Some(outcome.value);
    }
  }
}
