/**
 Reads of a credential that overlap other calls: the record is read in one transaction and its
 migrated forms are written back in later ones, whatever the row holds by then.
 */
module CredentialRaces {
  import opened Prelude
  import opened CredentialEnvelope
  import CredentialStore

  type Owner = CredentialStore.Owner

  /** The writes a read has still to make, in order, and the secret it returned. */
  datatype Migration = Migration(owner: Owner, writes: seq<Sealed>, secret: string)

  datatype World = World(store: CredentialStore.World, open: map<nat, Migration>)

  datatype Step = Store(step: CredentialStore.Step) | Fetch(p: nat, owner: Owner, rnd: Random) | Land(p: nat)

  function Optional(s: Option<Sealed>): seq<Sealed> {
    if s.Some? then [s.value] else []
  }

  /** What a read of this record goes on to write: it re-wrapped, if that is due, and then sealed anew, if that is. */
  function Writes(sealed: Sealed, o: Owner, ring: Ring, rnd: Random): seq<Sealed>
    requires ring != []
  {
    match Rewrap(sealed, o.tenant, o.connection, ring, rnd)
    case Err(_) => []
    case Ok(moved) =>
      var current := if moved.Some? then moved.value else sealed;
      Optional(moved) +
      (match Reseal(current, o.tenant, o.connection, ring, rnd) case Err(_) => [] case Ok(resealed) => Optional(resealed))
  }

  predicate PendingNames(w: World, id: string) {
    exists p :: p in w.open && exists i :: 0 <= i < |w.open[p].writes| && w.open[p].writes[i].keyVersion == id
  }

  /** Store steps are whole; a read is a fetch and one landing for each write. A write puts its record in place of whatever the row holds, or in a row of its own. A key is dropped only when neither a record nor a write on its way names it. */
  function Next(w: World, step: Step): World {
    match step
    case Store(Read(_, _, _)) => w
    case Store(Drop(i)) =>
      if i < |w.store.ring| && PendingNames(w, w.store.ring[i].0) then w else w.(store := CredentialStore.Next(w.store, step.step))
    case Store(s) => w.(store := CredentialStore.Next(w.store, s))
    case Fetch(p, o, rnd) =>
      if p in w.open || o !in w.store.entries || w.store.ring == [] then w
      else
        var sealed := w.store.entries[o].sealed;
        (match Unseal(sealed, o.tenant, o.connection, w.store.ring)
         case Err(_) => w
         case Ok(secret) => w.(open := w.open[p := Migration(o, Writes(sealed, o, w.store.ring, rnd), secret)]))
    case Land(p) =>
      if p !in w.open then w
      else if w.open[p].writes == [] then w.(open := w.open - {p})
      else
        var m := w.open[p];
        var given := if m.owner in w.store.entries then w.store.entries[m.owner].secret else m.secret;
        World(w.store.(entries := w.store.entries[m.owner := CredentialStore.Entry(m.writes[0], given)]), w.open[p := m.(writes := m.writes[1..])])
  }

  function Run(w: World, steps: seq<Step>): World
    decreases |steps|
  {
    if steps == [] then w else Run(Next(w, steps[0]), steps[1..])
  }

  predicate Migrating(w: World, o: Owner) {
    exists p :: p in w.open && w.open[p].owner == o && w.open[p].writes != []
  }

  /** Nobody stores or clears a credential while a read of it has writes on their way. */
  predicate Calm(w: World, step: Step) {
    match step
    case Store(Put(o, _, _)) => !Migrating(w, o)
    case Store(Clear(o)) => !Migrating(w, o)
    case _ => true
  }

  ghost predicate CalmRun(w: World, steps: seq<Step>)
    decreases |steps|
  {
    steps == [] || (Calm(w, steps[0]) && CalmRun(Next(w, steps[0]), steps[1..]))
  }

  /** A write on its way holds the secret its owner's record was given. */
  ghost predicate Sound(store: CredentialStore.World, m: Migration) {
    && (m.writes != [] ==> m.owner in store.entries && store.entries[m.owner].secret == m.secret)
    && forall i :: 0 <= i < |m.writes| ==> SealedFor(m.writes[i], m.owner.tenant, m.owner.connection, m.secret, store.ring)
  }

  ghost predicate Inv(w: World) {
    CredentialStore.Inv(w.store) && forall p {:trigger w.open[p]} :: p in w.open ==> Sound(w.store, w.open[p])
  }

  lemma WritesAreSealed(sealed: Sealed, o: Owner, secret: string, ring: Ring, rnd: Random)
    requires ring != [] && SealedFor(sealed, o.tenant, o.connection, secret, ring)
    ensures forall i :: 0 <= i < |Writes(sealed, o, ring, rnd)| ==> SealedFor(Writes(sealed, o, ring, rnd)[i], o.tenant, o.connection, secret, ring)
    ensures |Writes(sealed, o, ring, rnd)| > 0 <==> sealed.keyVersion != ring[0].0 || sealed.aadVersion != AAD_VERSION
  {
    RewrapKeepsSecret(sealed, o.tenant, o.connection, secret, ring, rnd);
    var moved := Rewrap(sealed, o.tenant, o.connection, ring, rnd).value;
    var current := if moved.Some? then moved.value else sealed;
    ResealKeepsSecret(current, o.tenant, o.connection, secret, ring, rnd);
  }

  /** A rotation, a promotion or a drop keeps every key but the dropped one. */
  lemma RingStepKeeps(ring: Ring, w: CredentialStore.World, step: CredentialStore.Step, id: string)
    requires CredentialStore.Inv(w) && ring == w.ring && Find(ring, id).Some?
    requires step.Rotate? || step.Promote? || (step.Drop? && (step.index < |ring| ==> ring[step.index].0 != id))
    ensures Find(CredentialStore.Next(w, step).ring, id) == Find(ring, id)
  {
    CredentialStore.StepKeepsInv(w, step);
    var after := CredentialStore.Next(w, step).ring;
    forall i | 0 <= i < |ring| && ring[i].0 == id
      ensures ring[i] in after
    {
      match step
      case Rotate(_, _) => assert after != ring ==> after[i + 1] == ring[i];
      case Promote(k) =>
        if k < |ring| {
          CredentialStore.WithoutKeepsOthers(ring, k);
        }
      case Drop(k) =>
        if after != ring {
          CredentialStore.WithoutKeepsOthers(ring, k);
        }
    }
    CredentialStore.FindKept(ring, after, id);
  }

  lemma StepKeepsInv(w: World, step: Step)
    requires Inv(w) && Calm(w, step)
    ensures Inv(Next(w, step))
  {
    match step
    case Store(s) => StoreKeepsInv(w, s);
    case Fetch(p, o, rnd) =>
      if Next(w, step) != w {
        assert CredentialStore.Holds(w.store.ring, o, w.store.entries[o]);
        SealedUnseals(w.store.entries[o].sealed, o.tenant, o.connection, w.store.entries[o].secret, w.store.ring);
        WritesAreSealed(w.store.entries[o].sealed, o, w.store.entries[o].secret, w.store.ring, rnd);
      }
    case Land(p) =>
      if p in w.open && w.open[p].writes != [] {
        LandKeepsInv(w, p);
      }
  }

  lemma LandKeepsInv(w: World, p: nat)
    requires Inv(w) && p in w.open && w.open[p].writes != []
    ensures Inv(Next(w, Land(p)))
  {
    var w', m := Next(w, Land(p)), w.open[p];
    assert Sound(w.store, m);
    assert w'.store.entries[m.owner].secret == w.store.entries[m.owner].secret == m.secret;
    forall o | o in w'.store.entries
      ensures CredentialStore.Holds(w'.store.ring, o, w'.store.entries[o])
    {
      if o != m.owner {
        assert CredentialStore.Holds(w.store.ring, o, w.store.entries[o]);
      }
    }
    forall q | q in w'.open
      ensures Sound(w'.store, w'.open[q])
    {
      assert Sound(w.store, w.open[q]);
      assert q == p ==> forall i :: 0 <= i < |m.writes| - 1 ==> m.writes[1..][i] == m.writes[i + 1];
    }
  }

  lemma StoreKeepsInv(w: World, s: CredentialStore.Step)
    requires Inv(w) && Calm(w, Store(s))
    ensures Inv(Next(w, Store(s)))
  {
    var w' := Next(w, Store(s));
    if w' != w {
      CredentialStore.StepKeepsInv(w.store, s);
      forall p | p in w'.open
        ensures Sound(w'.store, w'.open[p])
      {
        var m := w.open[p];
        assert Sound(w.store, m);
        assert m.writes != [] ==> Migrating(w, m.owner);
        if s.Rotate? || s.Promote? || s.Drop? {
          forall i | 0 <= i < |m.writes|
            ensures SealedFor(m.writes[i], m.owner.tenant, m.owner.connection, m.secret, w'.store.ring)
          {
            assert s.Drop? && s.index < |w.store.ring| && w.store.ring[s.index].0 == m.writes[i].keyVersion ==> PendingNames(w, m.writes[i].keyVersion);
            RingStepKeeps(w.store.ring, w.store, s, m.writes[i].keyVersion);
          }
        }
      }
    }
  }

  lemma {:induction false} RunKeepsInv(w: World, steps: seq<Step>)
    requires Inv(w) && CalmRun(w, steps)
    ensures Inv(Run(w, steps))
    decreases |steps|
  {
    if steps != [] {
      StepKeepsInv(w, steps[0]);
      RunKeepsInv(Next(w, steps[0]), steps[1..]);
    }
  }

  /** Over any interleaving of rotations, stores, clears and reads whose writes land whenever they do or never, every stored record still unseals to the secret it was given, so long as nobody stores or clears a credential while a read of it has writes on their way. */
  lemma NoSecretIsLost(w: World, steps: seq<Step>, o: Owner)
    requires CredentialStore.Inv(w.store) && w.open == map[] && CalmRun(w, steps) && o in Run(w, steps).store.entries
    ensures var s := Run(w, steps).store; Unseal(s.entries[o].sealed, o.tenant, o.connection, s.ring) == Ok(s.entries[o].secret)
  {
    RunKeepsInv(w, steps);
    var s := Run(w, steps).store;
    assert CredentialStore.Holds(s.ring, o, s.entries[o]);
  }

  /** And not otherwise: a read of a record that is due to move, overtaken by a new credential or by a removal, puts the old secret back. */
  lemma OvertakenReadRestores(w: World, o: Owner, rnd: Random, change: CredentialStore.Step)
    requires CredentialStore.Inv(w.store) && w.open == map[] && o in w.store.entries
    requires w.store.entries[o].sealed.keyVersion != w.store.ring[0].0 || w.store.entries[o].sealed.aadVersion != AAD_VERSION
    requires (change.Put? || change.Clear?) && change.owner == o
    ensures var s := Next(Next(Next(w, Fetch(1, o, rnd)), Store(change)), Land(1)).store;
      o in s.entries && Unseal(s.entries[o].sealed, o.tenant, o.connection, s.ring) == Ok(w.store.entries[o].secret)
  {
    var e := w.store.entries[o];
    assert CredentialStore.Holds(w.store.ring, o, e);
    SealedUnseals(e.sealed, o.tenant, o.connection, e.secret, w.store.ring);
    WritesAreSealed(e.sealed, o, e.secret, w.store.ring, rnd);
    var fetched := Next(w, Fetch(1, o, rnd));
    var changed := Next(fetched, Store(change));
    assert changed.open == fetched.open && changed.store.ring == w.store.ring;
    SealedUnseals(fetched.open[1].writes[0], o.tenant, o.connection, e.secret, w.store.ring);
  }
}
