/**
 Any number of appenders on one audit table, with the chain lock and without it.
 An appender takes the lock, reads the tail, inserts its row (which takes the next
 primary key but is seen by nobody else), and commits or rolls back.
 */
module AuditAppenders {
  import opened Prelude
  import opened AuditCanonical
  import opened AuditChain

  datatype Phase = Idle | Holding | TailRead(prev: Option<string>) | Inserted(row: Row)

  datatype World = World(rows: seq<Row>, nextId: int, lock: Option<nat>, phases: map<nat, Phase>)

  datatype Step =
    | Acquire(p: nat)
    | ReadTail(p: nat)
    | Insert(p: nat, fields: Fields)
    | Commit(p: nat)
    | Rollback(p: nat)

  function PhaseOf(w: World, p: nat): Phase {
    if p in w.phases then w.phases[p] else Idle
  }

  function Tail(rows: seq<Row>): Option<string> {
    if rows == [] then None else Some(rows[|rows| - 1].hash)
  }

  /** A committed row takes its place by primary key. */
  function InsertById(rows: seq<Row>, row: Row): seq<Row> {
    if rows == [] || rows[|rows| - 1].id < row.id then rows + [row]
    else InsertById(rows[..|rows| - 1], row) + [rows[|rows| - 1]]
  }

  function Released(w: World, p: nat): Option<nat> {
    if w.lock == Some(p) then None else w.lock
  }

  /** One step of one appender; a step that is not enabled changes nothing. */
  function Next(d: Digest, locking: bool, w: World, step: Step): World {
    var p := step.p;
    match (step, PhaseOf(w, p))
    case (Acquire(_), Idle) =>
      if locking && w.lock.None? then w.(lock := Some(p), phases := w.phases[p := Holding]) else w
    case (ReadTail(_), Idle) =>
      if locking then w else w.(phases := w.phases[p := TailRead(Tail(w.rows))])
    case (ReadTail(_), Holding) =>
      w.(phases := w.phases[p := TailRead(Tail(w.rows))])
    case (Insert(_, fields), TailRead(prev)) =>
      var row := Row(w.nextId, fields, prev, EntryHash(d, fields, prev));
      w.(nextId := w.nextId + 1, phases := w.phases[p := Inserted(row)])
    case (Commit(_), Inserted(row)) =>
      w.(rows := InsertById(w.rows, row), lock := Released(w, p), phases := w.phases[p := Idle])
    case (Rollback(_), _) =>
      w.(lock := Released(w, p), phases := w.phases[p := Idle])
    case _ => w
  }

  function Run(d: Digest, locking: bool, w: World, steps: seq<Step>): World
    decreases |steps|
  {
    if steps == [] then w else Run(d, locking, Next(d, locking, w, steps[0]), steps[1..])
  }

  const START := World([], 1, None, map[])

  // ----- with the lock -----

  ghost predicate Serialised(d: Digest, w: World, p: nat) {
    match PhaseOf(w, p)
    case Idle => w.lock != Some(p)
    case Holding => w.lock == Some(p)
    case TailRead(prev) => w.lock == Some(p) && prev == Tail(w.rows)
    case Inserted(row) =>
      w.lock == Some(p) && row.prev == Tail(w.rows) && Intact(d, row)
      && row.id < w.nextId && forall r :: r in w.rows ==> r.id < row.id
  }

  ghost predicate LockedInv(d: Digest, w: World) {
    && KeyedChain(d, w.rows)
    && (forall r :: r in w.rows ==> r.id < w.nextId)
    && (forall p :: Serialised(d, w, p))
  }

  lemma ChainExtends(d: Digest, rows: seq<Row>, row: Row)
    requires KeyedChain(d, rows) && Intact(d, row) && row.prev == Tail(rows)
    ensures KeyedChain(d, rows + [row])
  {
    var next := rows + [row];
    forall i | 0 <= i < |next|
      ensures Intact(d, next[i]) && FollowsOn(next, i)
    {
      if i < |rows| {
        assert Intact(d, rows[i]) && FollowsOn(rows, i);
      }
    }
  }

  lemma LockedStep(d: Digest, w: World, step: Step)
    requires LockedInv(d, w)
    ensures LockedInv(d, Next(d, true, w, step))
  {
    var w' := Next(d, true, w, step);
    assert Serialised(d, w, step.p);
    if step.Commit? && PhaseOf(w, step.p).Inserted? {
      var row := PhaseOf(w, step.p).row;
      assert w'.rows == w.rows + [row];
      ChainExtends(d, w.rows, row);
    } else {
      assert w'.rows == w.rows;
    }
    forall p
      ensures Serialised(d, w', p)
    {
      assert Serialised(d, w, p);
    }
  }

  lemma {:induction false} LockedRun(d: Digest, w: World, steps: seq<Step>)
    requires LockedInv(d, w)
    ensures LockedInv(d, Run(d, true, w, steps))
    decreases |steps|
  {
    if steps != [] {
      LockedStep(d, w, steps[0]);
      LockedRun(d, Next(d, true, w, steps[0]), steps[1..]);
    }
  }

  /** With the lock, no interleaving of any number of appenders leaves an anomaly. */
  lemma LockedTablesAreClean(d: Digest, steps: seq<Step>)
    requires Ideal(d)
    ensures var rows := Run(d, true, START, steps).rows; KeyedChain(d, rows) && Check(d, rows) == []
  {
    assert forall p :: Serialised(d, START, p);
    LockedRun(d, START, steps);
    CheckEmptyIffKeyedChain(d, Run(d, true, START, steps).rows);
  }

  // ----- without the lock -----

  /** The link names genesis or a committed row with a smaller key. */
  ghost predicate Rooted(rows: seq<Row>, prev: Option<string>, below: int) {
    prev.Some? ==> exists q :: q in rows && q.hash == prev.value && q.id < below
  }

  ghost predicate Racing(d: Digest, w: World, p: nat) {
    match PhaseOf(w, p)
    case Idle => true
    case Holding => true
    case TailRead(prev) => Rooted(w.rows, prev, w.nextId)
    case Inserted(row) =>
      Intact(d, row) && row.id < w.nextId && Rooted(w.rows, row.prev, row.id)
      && forall r :: r in w.rows ==> r.id != row.id
  }

  /** What every table has that honest appenders produced, in whatever order they ran. */
  ghost predicate HonestTable(d: Digest, rows: seq<Row>) {
    && ById(rows)
    && (forall r :: r in rows ==> Intact(d, r) && Rooted(rows, r.prev, r.id))
  }

  ghost predicate PendingDistinct(w: World) {
    forall p, q :: PhaseOf(w, p).Inserted? && PhaseOf(w, q).Inserted? && p != q ==>
      PhaseOf(w, p).row.id != PhaseOf(w, q).row.id
  }

  ghost predicate RacingInv(d: Digest, w: World) {
    && HonestTable(d, w.rows)
    && (forall r :: r in w.rows ==> r.id < w.nextId)
    && (forall p :: Racing(d, w, p))
    && PendingDistinct(w)
  }

  lemma {:induction false} InsertByIdKeeps(rows: seq<Row>, row: Row)
    requires ById(rows) && forall r :: r in rows ==> r.id != row.id
    ensures ById(InsertById(rows, row))
    ensures forall r :: r in InsertById(rows, row) <==> r in rows || r == row
  {
    if rows != [] && rows[|rows| - 1].id >= row.id {
      var init, last := rows[..|rows| - 1], rows[|rows| - 1];
      assert rows == init + [last];
      assert forall r :: r in init ==> r in rows;
      InsertByIdKeeps(init, row);
      var ins := InsertById(init, row);
      assert forall i :: 0 <= i < |ins| ==> ins[i] in ins;
    } else {
      assert forall i :: 0 <= i < |rows| ==> rows[i].id < row.id;
    }
  }

  lemma RootedGrows(rows: seq<Row>, more: seq<Row>, prev: Option<string>, below: int, above: int)
    requires Rooted(rows, prev, below) && below <= above && forall r :: r in rows ==> r in more
    ensures Rooted(more, prev, above)
  {
  }

  lemma RacingCommit(d: Digest, w: World, p: nat)
    requires RacingInv(d, w) && PhaseOf(w, p).Inserted?
    ensures HonestTable(d, InsertById(w.rows, PhaseOf(w, p).row))
    ensures forall r :: r in InsertById(w.rows, PhaseOf(w, p).row) <==> r in w.rows || r == PhaseOf(w, p).row
  {
    assert Racing(d, w, p);
    var row := PhaseOf(w, p).row;
    var rows' := InsertById(w.rows, row);
    InsertByIdKeeps(w.rows, row);
    forall r | r in rows'
      ensures Intact(d, r) && Rooted(rows', r.prev, r.id)
    {
      RootedGrows(w.rows, rows', r.prev, r.id, r.id);
    }
  }

  lemma RacingStep(d: Digest, locking: bool, w: World, step: Step)
    requires RacingInv(d, w)
    ensures RacingInv(d, Next(d, locking, w, step))
  {
    var w' := Next(d, locking, w, step);
    if step.Commit? && PhaseOf(w, step.p).Inserted? {
      RacingCommit(d, w, step.p);
      assert Racing(d, w, step.p);
    } else {
      assert w'.rows == w.rows && w.nextId <= w'.nextId;
    }
    forall p
      ensures Racing(d, w', p)
    {
      assert Racing(d, w, p);
      RacingKept(d, locking, w, step, p);
    }
    PendingKept(d, locking, w, step);
  }

  lemma PendingKept(d: Digest, locking: bool, w: World, step: Step)
    requires PendingDistinct(w) && forall p :: Racing(d, w, p)
    ensures PendingDistinct(Next(d, locking, w, step))
  {
    var w' := Next(d, locking, w, step);
    forall p, q | PhaseOf(w', p).Inserted? && PhaseOf(w', q).Inserted? && p != q
      ensures PhaseOf(w', p).row.id != PhaseOf(w', q).row.id
    {
      assert Racing(d, w, p) && Racing(d, w, q);
    }
  }

  lemma RacingKept(d: Digest, locking: bool, w: World, step: Step, p: nat)
    requires RacingInv(d, w) && Racing(d, w, p)
    requires forall r :: r in w.rows ==> r in Next(d, locking, w, step).rows
    requires step.Commit? && PhaseOf(w, step.p).Inserted? ==>
      forall r :: r in Next(d, locking, w, step).rows ==> r in w.rows || r == PhaseOf(w, step.p).row
    ensures Racing(d, Next(d, locking, w, step), p)
  {
    var w' := Next(d, locking, w, step);
    match PhaseOf(w, p)
    case TailRead(prev) =>
      RootedGrows(w.rows, w'.rows, prev, w.nextId, w'.nextId);
    case Inserted(row) =>
      RootedGrows(w.rows, w'.rows, row.prev, row.id, row.id);
    case _ =>
      if w.rows != [] {
        assert w.rows[|w.rows| - 1] in w.rows;
      }
  }

  lemma {:induction false} RacingRun(d: Digest, locking: bool, w: World, steps: seq<Step>)
    requires RacingInv(d, w)
    ensures RacingInv(d, Run(d, locking, w, steps))
    decreases |steps|
  {
    if steps != [] {
      RacingStep(d, locking, w, steps[0]);
      RacingRun(d, locking, Next(d, locking, w, steps[0]), steps[1..]);
    }
  }

  /** Rows sharing a parent never render the same fields (the microsecond timestamp is among them). */
  ghost predicate SiblingsDiffer(d: Digest, rows: seq<Row>) {
    forall i, j :: 0 <= i < j < |rows| && rows[i].prev == rows[j].prev ==> d.render(rows[i].fields) != d.render(rows[j].fields)
  }

  /** On the store's own rendering, separator-free fields that differ between siblings are enough. */
  lemma DistinctFieldsDiffer(sign: string -> string, rows: seq<Row>)
    requires forall i :: 0 <= i < |rows| ==> SeparatorFree(rows[i].fields)
    requires forall i, j :: 0 <= i < j < |rows| && rows[i].prev == rows[j].prev ==> rows[i].fields != rows[j].fields
    ensures SiblingsDiffer(Keyed(sign), rows)
  {
    forall i, j | 0 <= i < j < |rows| && rows[i].prev == rows[j].prev
      ensures Canonical(rows[i].fields) != Canonical(rows[j].fields)
    {
      if Canonical(rows[i].fields) == Canonical(rows[j].fields) {
        CanonicalIdentifies(rows[i].fields, rows[j].fields);
      }
    }
  }

  lemma HonestIntact(d: Digest, rows: seq<Row>, i: nat)
    requires HonestTable(d, rows) && i < |rows|
    ensures Intact(d, rows[i]) && IsLink(d, rows[i].prev) && ParentExists(rows, i)
  {
    assert rows[i] in rows;
    if rows[i].prev.Some? {
      var q :| q in rows && q.hash == rows[i].prev.value;
      assert Intact(d, q);
      IntactIsLink(d, q);
    }
  }

  /** Without the lock a row is reported as a duplicate exactly when another row shares its parent and its rendered fields. */
  lemma HonestTwins(d: Digest, rows: seq<Row>, i: nat)
    requires Ideal(d) && HonestTable(d, rows) && i < |rows|
    ensures HasTwin(rows, i) <==> exists j :: 0 <= j < |rows| && j != i && rows[j].prev == rows[i].prev && d.render(rows[j].fields) == d.render(rows[i].fields)
  {
    HonestIntact(d, rows, i);
    forall j | 0 <= j < |rows|
      ensures rows[j].hash == rows[i].hash <==> rows[j].prev == rows[i].prev && d.render(rows[j].fields) == d.render(rows[i].fields)
    {
      HonestIntact(d, rows, j);
      if rows[j].hash == rows[i].hash {
        TwinsAgree(d, rows[j], rows[i]);
      }
    }
  }

  /** The verdict on every row of a raced table: never `mutated` nor `duplicate`; `forked` when a sibling shares the parent, `dangling` when it does not. */
  lemma HonestKind(d: Digest, rows: seq<Row>, i: nat)
    requires Ideal(d) && HonestTable(d, rows) && SiblingsDiffer(d, rows) && i < |rows|
    ensures KindAt(d, rows, i) == if FollowsOn(rows, i) then None else if HasSibling(rows, i) then Some(ForkedRow) else Some(Dangling)
  {
    HonestIntact(d, rows, i);
    HonestTwins(d, rows, i);
  }

  /** The first anomaly of a raced table is always a fork, never a dangling row. */
  lemma FirstAnomalyIsForked(d: Digest, rows: seq<Row>, k: nat)
    requires Ideal(d) && HonestTable(d, rows) && SiblingsDiffer(d, rows) && k < |rows|
    requires KindAt(d, rows, k).Some? && forall i :: 0 <= i < k ==> KindAt(d, rows, i).None?
    ensures KindAt(d, rows, k) == Some(ForkedRow)
  {
    HonestKind(d, rows, k);
    forall i | 0 <= i < k
      ensures FollowsOn(rows, i)
    {
      assert KindAt(d, rows, i).None?;
      HonestKind(d, rows, i);
    }
    assert rows[k] in rows;
    MisplacedHasSibling(rows, k);
  }

  lemma MisplacedHasSibling(rows: seq<Row>, k: nat)
    requires ById(rows) && k < |rows| && Rooted(rows, rows[k].prev, rows[k].id)
    requires !FollowsOn(rows, k) && forall i :: 0 <= i < k ==> FollowsOn(rows, i)
    ensures HasSibling(rows, k)
  {
    if rows[k].prev.None? {
      assert FollowsOn(rows, 0);
    } else {
      var q :| q in rows && q.hash == rows[k].prev.value && q.id < rows[k].id;
      var j :| 0 <= j < |rows| && rows[j] == q;
      assert j + 1 < k;
      assert FollowsOn(rows, j + 1);
    }
  }

  /** No interleaving of unlocked appenders, rollbacks and late commits included, ever yields `mutated` or `duplicate`; and where anything is wrong, a fork comes first. */
  lemma UnlockedTablesOnlyFork(d: Digest, steps: seq<Step>)
    requires Ideal(d) && SiblingsDiffer(d, Run(d, false, START, steps).rows)
    ensures var rows := Run(d, false, START, steps).rows;
      && (forall i :: 0 <= i < |rows| ==> KindAt(d, rows, i) !in {Some(Mutated), Some(Duplicate)})
      && (Check(d, rows) != [] ==> exists k :: 0 <= k < |rows| && KindAt(d, rows, k) == Some(ForkedRow) && forall i :: 0 <= i < k ==> KindAt(d, rows, i).None?)
  {
    var rows := Run(d, false, START, steps).rows;
    assert forall p :: Racing(d, START, p);
    RacingRun(d, false, START, steps);
    forall i | 0 <= i < |rows|
      ensures KindAt(d, rows, i) !in {Some(Mutated), Some(Duplicate)}
    {
      HonestKind(d, rows, i);
    }
    VerifyReports(d, rows);
    if Check(d, rows) != [] {
      var i :| 0 <= i < |rows| && KindAt(d, rows, i).Some?;
      var k := FirstAnomaly(d, rows, i);
      FirstAnomalyIsForked(d, rows, k);
    }
  }

  lemma FirstAnomaly(d: Digest, rows: seq<Row>, i: nat) returns (k: nat)
    requires i < |rows| && KindAt(d, rows, i).Some?
    ensures k <= i && KindAt(d, rows, k).Some? && forall j :: 0 <= j < k ==> KindAt(d, rows, j).None?
  {
    if j :| 0 <= j < i && KindAt(d, rows, j).Some? {
      k := FirstAnomaly(d, rows, j);
    } else {
      k := i;
    }
  }

  lemma {:induction false} RunConcat(d: Digest, w: World, a: seq<Step>, b: seq<Step>)
    ensures Run(d, false, w, a + b) == Run(d, false, Run(d, false, w, a), b)
    decreases |a|
  {
    if a == [] {
      assert a + b == b;
    } else {
      assert (a + b)[1..] == a[1..] + b;
      RunConcat(d, Next(d, false, w, a[0]), a[1..], b);
    }
  }

  /** One more step at the end of a run. */
  lemma Then(d: Digest, steps: seq<Step>, step: Step) returns (more: seq<Step>)
    ensures Run(d, false, START, more) == Next(d, false, Run(d, false, START, steps), step)
  {
    more := steps + [step];
    RunConcat(d, START, steps, [step]);
    assert [step][1..] == [];
  }

  /** One appender that has read the tail inserts and commits. */
  lemma ThenAppend(d: Digest, steps: seq<Step>, p: nat, f: Fields, row: Row) returns (more: seq<Step>)
    requires var w := Run(d, false, START, steps);
      && PhaseOf(w, p) == TailRead(row.prev) && row == Row(w.nextId, f, row.prev, EntryHash(d, f, row.prev))
      && (w.rows == [] || w.rows[|w.rows| - 1].id < w.nextId)
    ensures var w, w' := Run(d, false, START, steps), Run(d, false, START, more);
      && w'.rows == w.rows + [row] && w'.nextId == w.nextId + 1
      && forall q :: q != p ==> PhaseOf(w', q) == PhaseOf(w, q)
    ensures PhaseOf(Run(d, false, START, more), p) == Idle
  {
    var m := Then(d, steps, Insert(p, f));
    more := Then(d, m, Commit(p));
  }

  /** Two appends have read the same tail `r0`. */
  lemma RaceOpens(d: Digest, f: Fields, r0: Row) returns (steps: seq<Step>)
    requires r0 == Row(1, f, None, EntryHash(d, f, None))
    ensures var w := Run(d, false, START, steps);
      && w.rows == [r0] && w.nextId == 2 && PhaseOf(w, 3) == Idle
      && PhaseOf(w, 1) == PhaseOf(w, 2) == TailRead(Some(r0.hash))
  {
    steps := Then(d, [], ReadTail(1));
    assert PhaseOf(Run(d, false, START, steps), 2) == PhaseOf(Run(d, false, START, steps), 3) == Idle;
    steps := ThenAppend(d, steps, 1, f, r0);
    assert PhaseOf(Run(d, false, START, steps), 2) == PhaseOf(Run(d, false, START, steps), 3) == Idle;
    steps := Then(d, steps, ReadTail(1));
    steps := Then(d, steps, ReadTail(2));
  }

  /** One of them lands, and a third append reads it as the tail. */
  lemma RaceGrows(d: Digest, before: seq<Step>, f: Fields, r0: Row, r1: Row) returns (steps: seq<Step>)
    requires r0.id == 1 && r1 == Row(2, f, Some(r0.hash), EntryHash(d, f, Some(r0.hash)))
    requires var w := Run(d, false, START, before);
      && w.rows == [r0] && w.nextId == 2 && PhaseOf(w, 3) == Idle
      && PhaseOf(w, 1) == PhaseOf(w, 2) == TailRead(Some(r0.hash))
    ensures var w := Run(d, false, START, steps);
      && w.rows == [r0, r1] && w.nextId == 3
      && PhaseOf(w, 2) == TailRead(Some(r0.hash)) && PhaseOf(w, 3) == TailRead(Some(r1.hash))
  {
    steps := ThenAppend(d, before, 1, f, r1);
    assert PhaseOf(Run(d, false, START, steps), 2) == TailRead(Some(r0.hash)) && PhaseOf(Run(d, false, START, steps), 3) == Idle;
    steps := Then(d, steps, ReadTail(3));
  }

  /** A race alone can raise the alarm: two appends read one tail, a third chains to the first of them, and once the second is in, the third is dangling, which `verify()` reports. */
  lemma RaceCanDangle(d: Digest, f: seq<Fields>) returns (steps: seq<Step>)
    requires Ideal(d) && |f| == 4 && forall i, j :: 0 <= i < j < 4 ==> d.render(f[i]) != d.render(f[j])
    ensures var rows := Run(d, false, START, steps).rows;
      |rows| == 4 && KindAt(d, rows, 2) == Some(ForkedRow) && KindAt(d, rows, 3) == Some(Dangling) && Verify(d, rows) != []
  {
    var r0 := Row(1, f[0], None, EntryHash(d, f[0], None));
    var r1 := Row(2, f[1], Some(r0.hash), EntryHash(d, f[1], Some(r0.hash)));
    var r2 := Row(3, f[2], Some(r0.hash), EntryHash(d, f[2], Some(r0.hash)));
    var r3 := Row(4, f[3], Some(r1.hash), EntryHash(d, f[3], Some(r1.hash)));
    steps := RaceOpens(d, f[0], r0);
    steps := RaceGrows(d, steps, f[1], r0, r1);
    steps := ThenAppend(d, steps, 2, f[2], r2);
    steps := ThenAppend(d, steps, 3, f[3], r3);
    assert Run(d, false, START, steps).rows == [r0, r1, r2, r3];
    RaceVerdict(d, [r0, r1, r2, r3]);
  }

  lemma RaceIsRooted(d: Digest, rows: seq<Row>)
    requires |rows| == 4 && ById(rows) && (forall i :: 0 <= i < 4 ==> Intact(d, rows[i]))
    requires rows[0].prev == None && rows[1].prev == rows[2].prev == Some(rows[0].hash) && rows[3].prev == Some(rows[1].hash)
    ensures forall r :: r in rows ==> Intact(d, r) && Rooted(rows, r.prev, r.id)
  {
    assert rows[0] in rows && rows[1] in rows;
    assert forall i :: 0 <= i < 4 ==> Rooted(rows, rows[i].prev, rows[i].id);
  }

  lemma RaceVerdict(d: Digest, rows: seq<Row>)
    requires Ideal(d) && |rows| == 4 && ById(rows) && (forall i :: 0 <= i < 4 ==> Intact(d, rows[i]))
    requires forall i, j :: 0 <= i < j < 4 ==> d.render(rows[i].fields) != d.render(rows[j].fields)
    requires rows[0].prev == None && rows[1].prev == rows[2].prev == Some(rows[0].hash) && rows[3].prev == Some(rows[1].hash)
    ensures KindAt(d, rows, 2) == Some(ForkedRow) && KindAt(d, rows, 3) == Some(Dangling) && Verify(d, rows) != []
  {
    RaceIsRooted(d, rows);
    HonestTwins(d, rows, 0);
    HonestTwins(d, rows, 1);
    HonestKind(d, rows, 2);
    HonestKind(d, rows, 3);
    VerifyReports(d, rows);
    assert Reported(d, rows, 3);
  }
}
