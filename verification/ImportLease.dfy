/**
 The import lease: pollers on any number of replicas claim a project's next cycle by
 comparing and setting the stored expiry on the value they read. Times are microseconds.
 */
module ImportLease {
  import opened Prelude

  /** The project's import-state row: absent, present without a lease, or leased until a time. */
  datatype Lease = NoRow | Unleased | Until(time: int)

  /** Where one poller stands inside a claim: idle, or holding the value it read and the clock it read first. */
  datatype Poller = Outside | Read(now: int, ttl: int, seen: Lease)

  /** A claim that succeeded: who, the poller's own clock, its ttl, and the stored value it replaced. */
  datatype Win = Win(p: nat, now: int, ttl: int, seen: Lease)

  datatype World = World(lease: Lease, pollers: map<nat, Poller>, wins: seq<Win>)

  datatype Step =
    | Begin(p: nat, now: int, ttl: int)
    | Settle(p: nat)
    | TouchRow

  function PollerOf(w: World, p: nat): Poller {
    if p in w.pollers then w.pollers[p] else Outside
  }

  /** Somebody else owns the cycle: the value read has not expired on this poller's clock. */
  predicate Held(seen: Lease, now: int) {
    seen.Until? && seen.time > now
  }

  /**
   `Begin` reads the clock and the row. `Settle` decides: a live lease is left alone; otherwise
   the row is inserted or updated only if it still is what was read. `TouchRow` is a watermark
   or a poll stamp creating the row meanwhile.
   */
  function Next(w: World, step: Step): World {
    match step
    case Begin(p, now, ttl) =>
      if ttl > 0 then w.(pollers := w.pollers[p := Read(now, ttl, w.lease)]) else w
    case Settle(p) =>
      (match PollerOf(w, p)
       case Outside => w
       case Read(now, ttl, seen) =>
         var out := w.(pollers := w.pollers[p := Outside]);
         if Held(seen, now) || w.lease != seen then out
         else out.(lease := Until(now + ttl), wins := w.wins + [Win(p, now, ttl, seen)]))
    case TouchRow =>
      if w.lease.NoRow? then w.(lease := Unleased) else w
  }

  function Run(w: World, steps: seq<Step>): World
    decreases |steps|
  {
    if steps == [] then w else Run(Next(w, steps[0]), steps[1..])
  }

  /** Stored values in the order they can appear. */
  predicate Before(a: Lease, b: Lease) {
    match (a, b)
    case (NoRow, NoRow) => false
    case (NoRow, _) => true
    case (Unleased, Until(_)) => true
    case (Until(s), Until(t)) => s < t
    case _ => false
  }

  /** What a win leaves behind. */
  function Left(win: Win): Lease {
    Until(win.now + win.ttl)
  }

  predicate AtMost(a: Lease, b: Lease) {
    a == b || Before(a, b)
  }

  /** Each win replaced a value that no earlier win left later than, and moved the lease forward. */
  ghost predicate Inv(w: World) {
    && (forall i :: 0 <= i < |w.wins| ==> w.wins[i].ttl > 0 && !Held(w.wins[i].seen, w.wins[i].now) && AtMost(Left(w.wins[i]), w.lease))
    && (forall i, j :: 0 <= i < j < |w.wins| ==> AtMost(Left(w.wins[i]), w.wins[j].seen))
    && (forall p :: PollerOf(w, p).Read? ==> PollerOf(w, p).ttl > 0)
  }

  lemma StepKeepsInv(w: World, step: Step)
    requires Inv(w)
    ensures Inv(Next(w, step))
    ensures Next(w, step).lease == w.lease || Before(w.lease, Next(w, step).lease)
  {
    var w' := Next(w, step);
    forall p | PollerOf(w', p).Read?
      ensures PollerOf(w', p).ttl > 0
    {
      assert PollerOf(w, p).Read? ==> PollerOf(w, p).ttl > 0;
    }
    if w'.wins != w.wins {
      var win := w'.wins[|w.wins|];
      assert PollerOf(w, step.p).ttl > 0;
      assert Before(win.seen, Left(win)) && win.seen == w.lease;
    }
  }

  lemma {:induction false} RunKeepsInv(w: World, steps: seq<Step>)
    requires Inv(w)
    ensures Inv(Run(w, steps)) && AtMost(w.lease, Run(w, steps).lease)
    decreases |steps|
  {
    if steps != [] {
      StepKeepsInv(w, steps[0]);
      RunKeepsInv(Next(w, steps[0]), steps[1..]);
    }
  }

  const START := World(NoRow, map[], [])

  /** The stored lease never comes back to a value it has left: over any run, a later state either still holds the value or holds one that comes after it. */
  lemma LeaseOnlyMovesForward(steps: seq<Step>, more: seq<Step>)
    ensures var w := Run(START, steps); AtMost(w.lease, Run(w, more).lease)
  {
    RunKeepsInv(START, steps);
    RunKeepsInv(Run(START, steps), more);
  }

  /** Whatever the interleaving and whatever the clocks, no value read is ever won twice, and every win moves the lease strictly forward. */
  lemma EachValueWonOnce(steps: seq<Step>, i: nat, j: nat)
    requires i < j < |Run(START, steps).wins|
    ensures var wins := Run(START, steps).wins; wins[i].seen != wins[j].seen && Before(wins[i].seen, Left(wins[i])) && AtMost(Left(wins[i]), wins[j].seen)
  {
    RunKeepsInv(START, steps);
    var wins := Run(START, steps).wins;
    assert !Held(wins[i].seen, wins[i].now) && wins[i].ttl > 0;
  }

  /** The windows of successive winners, each on its own clock, never overlap. */
  lemma WinnersDisjoint(steps: seq<Step>, i: nat, j: nat)
    requires i < j < |Run(START, steps).wins|
    ensures var wins := Run(START, steps).wins; wins[i].now + wins[i].ttl <= wins[j].now
  {
    RunKeepsInv(START, steps);
    var wins := Run(START, steps).wins;
    assert !Held(wins[j].seen, wins[j].now);
  }

  /** With nobody in between, a poller's `Begin` and `Settle` win exactly when the lease it finds is not live. */
  lemma UncontendedClaim(w: World, p: nat, now: int, ttl: int)
    requires ttl > 0
    ensures var w' := Run(w, [Begin(p, now, ttl), Settle(p)]);
      if w.lease.Until? && w.lease.time > now then w'.lease == w.lease && w'.wins == w.wins
      else w'.lease == Until(now + ttl) && w'.wins == w.wins + [Win(p, now, ttl, w.lease)]
  {
    assert [Begin(p, now, ttl), Settle(p)][1..] == [Settle(p)] && [Settle(p)][1..] == [];
    assert Run(Next(w, Begin(p, now, ttl)), [Settle(p)]) == Next(Next(w, Begin(p, now, ttl)), Settle(p));
  }

  // ----- the store's method -----

  class ImportState {
    var lease: Lease

    constructor ()
      ensures lease == NoRow
    {
      lease := NoRow;
    }

    /** `UPDATE ... WHERE poll_leased_until = seen`: the row count decides. */
    method CompareAndSet(seen: Lease, value: int) returns (claimed: bool)
      modifies this
      ensures claimed <==> old(lease) == seen
      ensures lease == if claimed then Until(value) else old(lease)
    {
      claimed := lease == seen;
      if claimed {
        lease := Until(value);
      }
    }

    /** One claim with nobody in between. */
    method ClaimImportLease(now: int, ttl: int) returns (claimed: bool)
      requires ttl > 0
      modifies this
      ensures claimed <==> !(old(lease).Until? && old(lease).time > now)
      ensures lease == if claimed then Until(now + ttl) else old(lease)
    {
      var previous := lease;
      if previous.NoRow? {
        lease := Until(now + ttl);
        return true;
      }
      if previous.Until? && previous.time > now {
        return false;
      }
      claimed := CompareAndSet(previous, now + ttl);
    }
  }
}
