/** What a scan reports, said of the rows alone: their digests, their links and their neighbours. */
module AuditVerdicts {
  import opened Prelude
  import opened AuditCanonical
  import opened AuditChain
  import opened AuditAppenders

  /** The four anomalies, each exactly when: a row whose digest is not that of its columns; a sound row whose digest another row carries; and of the other rows not right behind their link, those with a sibling and a parent in the table, and those lacking either. */
  lemma AnomaliesSaid(d: Digest, rows: seq<Row>, i: nat)
    requires ById(rows) && i < |rows|
    ensures var r, found := rows[i], Check(d, rows);
      var sound := r.hash == EntryHash(d, r.fields, r.prev);
      var alone := forall j :: 0 <= j < |rows| && j != i ==> rows[j].hash != r.hash;
      var behind := r.prev == (if i == 0 then None else Some(rows[i - 1].hash));
      var sibling := exists j :: 0 <= j < |rows| && j != i && rows[j].prev == r.prev;
      var parent := r.prev.None? || exists j :: 0 <= j < |rows| && rows[j].hash == r.prev.value;
      && (Break(r.id, Mutated) in found <==> !sound)
      && (Break(r.id, Duplicate) in found <==> sound && !alone)
      && (Break(r.id, ForkedRow) in found <==> sound && alone && !behind && sibling && parent)
      && (Break(r.id, Dangling) in found <==> sound && alone && !behind && !(sibling && parent))
  {
    FindingsAre(d, rows, |rows|);
    forall k: Kind
      ensures Break(rows[i].id, k) in Check(d, rows) <==> KindAt(d, rows, i) == Some(k)
    {
      if KindAt(d, rows, i) == Some(k) {
        assert FoundAt(d, rows, i, Break(rows[i].id, k));
      }
      if Break(rows[i].id, k) in Check(d, rows) {
        var j :| 0 <= j < |rows| && FoundAt(d, rows, j, Break(rows[i].id, k));
        assert j == i;
      }
    }
  }

  /** Whatever the table, a row whose parent is not in it is reported, siblings or not. */
  lemma OrphansReported(d: Digest, rows: seq<Row>, r: Row)
    requires r in rows && r.prev.Some? && forall x :: x in rows ==> x.hash != r.prev.value
    ensures r.id in Verify(d, rows)
  {
    var i :| 0 <= i < |rows| && rows[i] == r;
    assert i > 0 ==> rows[i - 1] in rows;
    VerifyReports(d, rows);
    assert Reported(d, rows, i);
  }

  /** Whatever the table, only a row at genesis, or one whose parent is in it, is ever called a fork. */
  lemma ForksHaveParents(d: Digest, rows: seq<Row>, b: Break)
    requires b in Check(d, rows) && b.kind == ForkedRow
    ensures exists r :: r in rows && r.id == b.id && (r.prev.None? || exists q :: q in rows && q.hash == r.prev.value)
  {
    FindingsAre(d, rows, |rows|);
    var i :| 0 <= i < |rows| && FoundAt(d, rows, i, b);
    var r := rows[i];
    if r.prev.Some? {
      var j :| 0 <= j < |rows| && rows[j].hash == r.prev.value;
      assert rows[j] in rows;
    }
    assert r in rows;
  }

  /** Delete any rows of a raced table: an id is reported exactly when its row no longer stands right behind its link and has lost its last sibling or its parent. So the children of a deleted row are reported, forked or not. */
  lemma SurvivorsReported(d: Digest, rows: seq<Row>, left: seq<Row>, i: nat)
    requires Ideal(d) && HonestTable(d, rows) && SiblingsDiffer(d, rows)
    requires ById(left) && (forall r :: r in left ==> r in rows) && i < |left|
    ensures var r := left[i];
      r.id in Verify(d, left) <==>
        && r.prev != (if i == 0 then None else Some(left[i - 1].hash))
        && ((forall j :: 0 <= j < |left| && j != i ==> left[j].prev != r.prev) || (r.prev.Some? && forall j :: 0 <= j < |left| ==> left[j].hash != r.prev.value))
  {
    SurvivorsSound(d, rows, left, i);
    VerifyAt(d, left, i);
  }

  lemma VerifyAt(d: Digest, rows: seq<Row>, i: nat)
    requires ById(rows) && i < |rows|
    ensures rows[i].id in Verify(d, rows) <==> Reported(d, rows, i)
  {
    VerifyReports(d, rows);
    if rows[i].id in Verify(d, rows) {
      var j :| 0 <= j < |rows| && Reported(d, rows, j) && rows[j].id == rows[i].id;
      assert j == i;
    }
  }

  lemma SurvivorsSound(d: Digest, rows: seq<Row>, left: seq<Row>, i: nat)
    requires Ideal(d) && HonestTable(d, rows) && SiblingsDiffer(d, rows)
    requires ById(left) && (forall r :: r in left ==> r in rows) && i < |left|
    ensures Intact(d, left[i]) && !HasTwin(left, i)
  {
    var k := Place(rows, left, i);
    HonestIntact(d, rows, k);
    HonestTwins(d, rows, k);
    forall j | 0 <= j < |left| && j != i
      ensures left[j].hash != left[i].hash
    {
      var l := Place(rows, left, j);
      assert left[j].id != left[i].id;
      assert l != k;
    }
  }

  lemma Place(rows: seq<Row>, left: seq<Row>, i: nat) returns (k: nat)
    requires i < |left| && forall r :: r in left ==> r in rows
    ensures k < |rows| && rows[k] == left[i]
  {
    assert left[i] in left;
    k :| 0 <= k < |rows| && rows[k] == left[i];
  }

  // ----- order, and the report -----

  ghost predicate Increasing(found: seq<Break>) {
    forall a, b :: 0 <= a < b < |found| ==> found[a].id < found[b].id
  }

  ghost predicate Rising(ids: seq<int>) {
    forall a, b :: 0 <= a < b < |ids| ==> ids[a] < ids[b]
  }

  /** Each row is reported at most once, in table order. */
  lemma {:induction false} FindingsInOrder(d: Digest, rows: seq<Row>, n: nat)
    requires ById(rows) && n <= |rows|
    ensures Increasing(Findings(d, rows, n))
    ensures forall b :: b in Findings(d, rows, n) ==> n > 0 && b.id <= rows[n - 1].id
  {
    if n > 0 {
      FindingsInOrder(d, rows, n - 1);
      assert n > 1 ==> rows[n - 2].id < rows[n - 1].id;
    }
  }

  lemma {:induction false} NotForkedInOrder(found: seq<Break>)
    requires Increasing(found)
    ensures Rising(NotForked(found))
    ensures forall id :: id in NotForked(found) ==> found != [] && id <= found[|found| - 1].id
  {
    if found != [] {
      var init := found[..|found| - 1];
      NotForkedInOrder(init);
      forall a | 0 <= a < |NotForked(init)|
        ensures NotForked(init)[a] < found[|found| - 1].id
      {
        assert NotForked(init)[a] in NotForked(init);
      }
    }
  }

  lemma {:induction false} OutstandingInOrder(found: seq<Break>, acknowledged: set<int>)
    requires Increasing(found)
    ensures Increasing(Outstanding(found, acknowledged))
    ensures forall b :: b in Outstanding(found, acknowledged) ==> found != [] && b.id <= found[|found| - 1].id
  {
    if found != [] {
      OutstandingInOrder(found[..|found| - 1], acknowledged);
    }
  }

  /** Both lists a caller sees name rows in table order, none twice. */
  lemma ReportedInOrder(d: Digest, rows: seq<Row>)
    requires ById(rows)
    ensures Increasing(Check(d, rows)) && Rising(Verify(d, rows))
  {
    FindingsInOrder(d, rows, |rows|);
    NotForkedInOrder(Check(d, rows));
  }

  /** A fresh report counts the rows, carries its own stamp, lists in table order every anomaly but the acknowledged forks, lists those apart, and calls the table tampered, forked or sound by the worst that is left. */
  lemma ReportSaid(d: Digest, rows: seq<Row>, acknowledged: set<int>, stamp: int)
    requires ById(rows)
    ensures var r, found := FreshReport(d, rows, acknowledged, stamp), Check(d, rows);
      && r.rows == |rows| && r.checkedAt == stamp && Increasing(r.findings)
      && (forall b :: b in r.findings <==> b in found && !(b.kind == ForkedRow && b.id in acknowledged))
      && (forall id :: id in r.acknowledged <==> id in acknowledged && Break(id, ForkedRow) in found)
      && (r.verdict == Tampered <==> exists b :: b in found && b.kind != ForkedRow)
      && (r.verdict == Sound <==> r.findings == [])
      && (r.verdict == ForkedChain <==> r.findings != [] && forall b :: b in r.findings ==> b.kind == ForkedRow)
  {
    var found := Check(d, rows);
    FindingsInOrder(d, rows, |rows|);
    OutstandingAre(found, acknowledged);
    OutstandingInOrder(found, acknowledged);
    var r := FreshReport(d, rows, acknowledged, stamp);
    if b :| b in found && b.kind != ForkedRow {
      assert b in r.findings;
    }
    forall id | id in acknowledged && Break(id, ForkedRow) in found
      ensures id in r.acknowledged
    {
      assert Forgiven(Break(id, ForkedRow), acknowledged);
    }
    assert r.findings != [] ==> r.findings[0] in r.findings;
  }
}
