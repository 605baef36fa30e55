/** The audit store: appending under the chain lock, the dictionary-driven scan, and the cached report. */
module AuditLog {
  import opened Prelude
  import opened AuditCanonical
  import opened AuditChain

  // ----- the dictionaries a scan fills -----

  /** Ids of the rows filed under `k`, in table order. */
  function IdsUnder<K(==)>(rows: seq<Row>, key: Row -> K, k: K): seq<int> {
    if rows == [] then []
    else
      var n := |rows| - 1;
      IdsUnder(rows[..n], key, k) + if key(rows[n]) == k then [rows[n].id] else []
  }

  ghost predicate Indexes<K(!new)>(m: map<K, seq<int>>, rows: seq<Row>, key: Row -> K) {
    && (forall k :: k in m <==> exists i :: 0 <= i < |rows| && key(rows[i]) == k)
    && (forall k :: k in m ==> m[k] == IdsUnder(rows, key, k))
  }

  /** `m.setdefault(k, []).append(id)` */
  function Filed<K>(m: map<K, seq<int>>, k: K, id: int): map<K, seq<int>> {
    m[k := (if k in m then m[k] else []) + [id]]
  }

  lemma {:induction false} IdsUnderAre<K>(rows: seq<Row>, key: Row -> K, k: K)
    ensures forall id :: id in IdsUnder(rows, key, k) <==> exists i :: 0 <= i < |rows| && key(rows[i]) == k && rows[i].id == id
  {
    if rows != [] {
      var n := |rows| - 1;
      IdsUnderAre(rows[..n], key, k);
      forall id | exists i :: 0 <= i < |rows| && key(rows[i]) == k && rows[i].id == id
        ensures id in IdsUnder(rows, key, k)
      {
        var i :| 0 <= i < |rows| && key(rows[i]) == k && rows[i].id == id;
        if i < n {
          assert rows[..n][i] == rows[i];
        }
      }
    }
  }

  lemma FiledIndexes<K(!new)>(m: map<K, seq<int>>, rows: seq<Row>, key: Row -> K, n: nat)
    requires n < |rows| && Indexes(m, rows[..n], key)
    ensures Indexes(Filed(m, key(rows[n]), rows[n].id), rows[..n + 1], key)
  {
    var k0 := key(rows[n]);
    var done, next := rows[..n], rows[..n + 1];
    assert next[..n] == done && next[n] == rows[n];
    var m' := Filed(m, k0, rows[n].id);
    forall k
      ensures k in m' <==> exists i :: 0 <= i < |next| && key(next[i]) == k
    {
      if k == k0 {
        assert key(next[n]) == k;
      } else if k in m {
        var i :| 0 <= i < |done| && key(done[i]) == k;
        assert next[i] == done[i];
      }
    }
    if k0 !in m {
      forall i | 0 <= i < |done|
        ensures key(done[i]) != k0
      {
      }
      NothingUnder(done, key, k0);
    }
  }

  lemma NothingUnder<K>(rows: seq<Row>, key: Row -> K, k: K)
    requires forall i :: 0 <= i < |rows| ==> key(rows[i]) != k
    ensures IdsUnder(rows, key, k) == []
  {
  }

  // ----- naming an anomaly -----

  function Others(ids: seq<int>, id: int): seq<int> {
    if ids == [] then []
    else (if ids[0] == id then [] else [ids[0]]) + Others(ids[1..], id)
  }

  lemma {:induction false} OthersAre(ids: seq<int>, id: int)
    ensures Others(ids, id) == [] <==> forall x :: x in ids ==> x == id
  {
    if ids != [] {
      OthersAre(ids[1..], id);
      assert ids == [ids[0]] + ids[1..];
      assert forall x :: x in ids <==> x == ids[0] || x in ids[1..];
      assert ids[0] in ids && forall x :: x in ids[1..] ==> x in ids;
    }
  }

  /** `_classify` */
  function Classify(row: Row, recomputed: string, expectedPrev: Option<string>,
                    byHash: map<string, seq<int>>, byParent: map<Option<string>, seq<int>>): Option<Break>
    requires row.hash in byHash && row.prev in byParent
  {
    if row.hash != recomputed then Some(Break(row.id, Mutated))
    else if Others(byHash[row.hash], row.id) != [] then Some(Break(row.id, Duplicate))
    else if row.prev == expectedPrev then None
    else
      var siblings := Others(byParent[row.prev], row.id);
      var parentExists := row.prev.None? || row.prev.value in byHash;
      if siblings != [] && parentExists then Some(Break(row.id, ForkedRow)) else Some(Break(row.id, Dangling))
  }

  const HASH_OF: Row -> string := (r: Row) => r.hash
  const PARENT_OF: Row -> Option<string> := (r: Row) => r.prev

  lemma OthersUnder<K>(rows: seq<Row>, key: Row -> K, i: nat)
    requires ById(rows) && i < |rows|
    ensures Others(IdsUnder(rows, key, key(rows[i])), rows[i].id) != [] <==>
            exists j :: 0 <= j < |rows| && j != i && key(rows[j]) == key(rows[i])
  {
    var ids := IdsUnder(rows, key, key(rows[i]));
    IdsUnderAre(rows, key, key(rows[i]));
    OthersAre(ids, rows[i].id);
    if j :| 0 <= j < |rows| && j != i && key(rows[j]) == key(rows[i]) {
      assert rows[j].id in ids && rows[j].id != rows[i].id;
    }
    if x :| x in ids && x != rows[i].id {
      var j :| 0 <= j < |rows| && key(rows[j]) == key(rows[i]) && rows[j].id == x;
    }
  }

  lemma TwinsFiled(rows: seq<Row>, i: nat, byHash: map<string, seq<int>>)
    requires ById(rows) && i < |rows| && Indexes(byHash, rows, HASH_OF)
    ensures rows[i].hash in byHash
    ensures HasTwin(rows, i) <==> Others(byHash[rows[i].hash], rows[i].id) != []
  {
    assert HASH_OF(rows[i]) == rows[i].hash;
    OthersUnder(rows, HASH_OF, i);
  }

  lemma SiblingsFiled(rows: seq<Row>, i: nat, byParent: map<Option<string>, seq<int>>)
    requires ById(rows) && i < |rows| && Indexes(byParent, rows, PARENT_OF)
    ensures rows[i].prev in byParent
    ensures HasSibling(rows, i) <==> Others(byParent[rows[i].prev], rows[i].id) != []
  {
    assert PARENT_OF(rows[i]) == rows[i].prev;
    OthersUnder(rows, PARENT_OF, i);
  }

  lemma ParentFiled(rows: seq<Row>, i: nat, byHash: map<string, seq<int>>)
    requires i < |rows| && Indexes(byHash, rows, HASH_OF)
    ensures ParentExists(rows, i) <==> (rows[i].prev.None? || rows[i].prev.value in byHash)
  {
    assert forall j :: 0 <= j < |rows| ==> HASH_OF(rows[j]) == rows[j].hash;
  }

  /** With both dictionaries complete, the one-row test gives the verdict defined over the whole table. */
  lemma ClassifyMeansKindAt(d: Digest, rows: seq<Row>, i: nat, recomputed: string,
                            byHash: map<string, seq<int>>, byParent: map<Option<string>, seq<int>>)
    requires ById(rows) && i < |rows| && (recomputed == rows[i].hash <==> Intact(d, rows[i]))
    requires Indexes(byHash, rows, HASH_OF) && Indexes(byParent, rows, PARENT_OF)
    ensures rows[i].hash in byHash && rows[i].prev in byParent
    ensures Classify(rows[i], recomputed, LinkBefore(rows, i), byHash, byParent)
         == match KindAt(d, rows, i) case None => None case Some(k) => Some(Break(rows[i].id, k))
  {
    TwinsFiled(rows, i, byHash);
    SiblingsFiled(rows, i, byParent);
    ParentFiled(rows, i, byHash);
    assert FollowsOn(rows, i) <==> rows[i].prev == LinkBefore(rows, i);
  }

  // ----- the store -----

  /** How long a computed report is served, in microseconds. */
  const REPORT_TTL := 30_000_000

  /** The anomalies an operator has still to look at, and the ids of the forks already looked at. */
  method SetApart(breaks: seq<Break>, acknowledged: set<int>) returns (findings: seq<Break>, forgiven: set<int>)
    ensures findings == Outstanding(breaks, acknowledged) && forgiven == ForgivenIds(breaks, acknowledged)
  {
    findings, forgiven := [], {};
    for i := 0 to |breaks|
      invariant findings == Outstanding(breaks[..i], acknowledged)
      invariant forgiven == ForgivenIds(breaks[..i], acknowledged)
    {
      var b := breaks[i];
      assert breaks[..i + 1] == breaks[..i] + [b];
      assert breaks[..i + 1][..i] == breaks[..i];
      if b.kind.ForkedRow? && b.id in acknowledged {
        forgiven := forgiven + {b.id};
      } else {
        findings := findings + [b];
      }
    }
    assert breaks[..|breaks|] == breaks;
  }

  /** A row digested over the last one's digest, with the next id, extends a table and keeps a chain a chain. */
  lemma ChainOneMore(d: Digest, rows: seq<Row>, row: Row)
    requires ById(rows) && Intact(d, row)
    requires row.prev == (if rows == [] then None else Some(rows[|rows| - 1].hash)) && (rows != [] ==> rows[|rows| - 1].id < row.id)
    ensures ById(rows + [row]) && FollowsOn(rows + [row], |rows|)
    ensures KeyedChain(d, rows) ==> KeyedChain(d, rows + [row])
  {
    var more := rows + [row];
    assert more[|rows|] == row && forall i :: 0 <= i < |rows| ==> more[i] == rows[i];
    if KeyedChain(d, rows) {
      forall i | 0 <= i < |more|
        ensures Intact(d, more[i]) && FollowsOn(more, i)
      {
        if i < |rows| {
          assert Intact(d, rows[i]) && FollowsOn(rows, i);
        }
      }
    }
  }

  class AuditStore {
    const digest: Digest
    const acknowledged: set<int>
    var rows: seq<Row>
    var report: Option<Report>

    ghost predicate Valid()
      reads this
    {
      ById(rows)
    }

    constructor (digest: Digest, acknowledged: set<int>)
      ensures Valid() && rows == [] && report == None
      ensures this.digest == digest && this.acknowledged == acknowledged
    {
      this.digest := digest;
      this.acknowledged := acknowledged;
      rows := [];
      report := None;
    }

    /** Append one entry to the tail; the tail read and the insert are one critical section. */
    method Record(fields: Fields) returns (row: Row)
      requires Valid()
      modifies this`rows
      ensures Valid() && rows == old(rows) + [row]
      ensures row.fields == fields && Intact(digest, row) && FollowsOn(rows, |old(rows)|)
      ensures KeyedChain(digest, old(rows)) ==> KeyedChain(digest, rows)
    {
      var prev, id := None, 1;
      if |rows| > 0 {
        prev, id := Some(rows[|rows| - 1].hash), rows[|rows| - 1].id + 1;
      }
      row := Row(id, fields, prev, EntryHash(digest, fields, prev));
      ChainOneMore(digest, rows, row);
      rows := rows + [row];
    }

    /** File every row under its digest and under its parent. */
    method Index() returns (byHash: map<string, seq<int>>, byParent: map<Option<string>, seq<int>>)
      ensures Indexes(byHash, rows, HASH_OF) && Indexes(byParent, rows, PARENT_OF)
    {
      byHash, byParent := map[], map[];
      for i := 0 to |rows|
        invariant Indexes(byHash, rows[..i], HASH_OF)
        invariant Indexes(byParent, rows[..i], PARENT_OF)
      {
        assert HASH_OF(rows[i]) == rows[i].hash && PARENT_OF(rows[i]) == rows[i].prev;
        FiledIndexes(byHash, rows, HASH_OF, i);
        FiledIndexes(byParent, rows, PARENT_OF, i);
        byHash := Filed(byHash, rows[i].hash, rows[i].id);
        byParent := Filed(byParent, rows[i].prev, rows[i].id);
      }
      assert rows[..|rows|] == rows;
    }

    /** Go through the table once, against both dictionaries, and count its rows. */
    method Scan() returns (count: nat, found: seq<Break>)
      requires Valid()
      ensures count == |rows| && found == Check(digest, rows)
    {
      var byHash, byParent := Index();
      count, found := |rows|, [];
      var expectedPrev: Option<string> := None;
      for i := 0 to |rows|
        invariant expectedPrev == if i == 0 then None else Some(rows[i - 1].hash)
        invariant found == Findings(digest, rows, i)
      {
        var row := rows[i];
        var recomputed := EntryHash(digest, row.fields, row.prev);
        ClassifyMeansKindAt(digest, rows, i, recomputed, byHash, byParent);
        var anomaly := Classify(row, recomputed, expectedPrev, byHash, byParent);
        if anomaly.Some? {
          found := found + [anomaly.value];
        }
        expectedPrev := Some(row.hash);
      }
    }

    /** Ids of the rows carrying tamper evidence. */
    method VerifyIds() returns (ids: seq<int>)
      requires Valid()
      ensures ids == Verify(digest, rows)
    {
      var _, found := Scan();
      ids := [];
      for i := 0 to |found|
        invariant ids == NotForked(found[..i])
      {
        assert found[..i + 1][..i] == found[..i];
        if !found[i].kind.ForkedRow? {
          ids := ids + [found[i].id];
        }
      }
      assert found[..|found|] == found;
    }

    /** The verdict, recomputed at most once per TTL. `now` is read before the scan and `stamp` after it. */
    method GetReport(now: int, stamp: int) returns (r: Report)
      requires Valid()
      modifies this`report
      ensures Valid() && report == Some(r)
      ensures r == if old(report).Some? && now - old(report).value.checkedAt < 30_000_000 then old(report).value
                   else FreshReport(digest, rows, acknowledged, stamp)
    {
      if report.Some? && now - report.value.checkedAt < REPORT_TTL {
        return report.value;
      }
      var count, breaks := Scan();
      var findings, forgiven := SetApart(breaks, acknowledged);
      var verdict := Sound;
      if findings != [] {
        verdict := ForkedChain;
      }
      if exists b :: b in findings && !b.kind.ForkedRow? {
        verdict := Tampered;
      }
      r := Report(verdict, count, stamp, findings, forgiven);
      report := Some(r);
    }
  }
}
