/**
 The audit table, the one-pass checker over it, and what the checker's verdicts mean.
 */
module AuditChain {
  import opened Prelude
  import opened AuditCanonical
  import Text

  datatype Row = Row(id: int, fields: Fields, prev: Option<string>, hash: string)

  /** Rows as a scan sees them: primary keys in increasing order. */
  ghost predicate ById(rows: seq<Row>) {
    forall i, j :: 0 <= i < j < |rows| ==> rows[i].id < rows[j].id
  }

  datatype Kind = Mutated | Duplicate | ForkedRow | Dangling

  datatype Break = Break(id: int, kind: Kind)

  // ----- what each verdict means, said of the table -----

  function LinkBefore(rows: seq<Row>, i: nat): Option<string>
    requires i < |rows|
  {
    if i == 0 then None else Some(rows[i - 1].hash)
  }

  predicate FollowsOn(rows: seq<Row>, i: nat)
    requires i < |rows|
  {
    rows[i].prev == LinkBefore(rows, i)
  }

  predicate Intact(d: Digest, row: Row) {
    row.hash == EntryHash(d, row.fields, row.prev)
  }

  predicate HasTwin(rows: seq<Row>, i: nat)
    requires i < |rows|
  {
    exists j :: 0 <= j < |rows| && j != i && rows[j].hash == rows[i].hash
  }

  predicate HasSibling(rows: seq<Row>, i: nat)
    requires i < |rows|
  {
    exists j :: 0 <= j < |rows| && j != i && rows[j].prev == rows[i].prev
  }

  predicate ParentExists(rows: seq<Row>, i: nat)
    requires i < |rows|
  {
    rows[i].prev.None? || exists j :: 0 <= j < |rows| && rows[j].hash == rows[i].prev.value
  }

  /** The anomaly row `i` of the table carries, if any. */
  function KindAt(d: Digest, rows: seq<Row>, i: nat): Option<Kind>
    requires i < |rows|
  {
    if !Intact(d, rows[i]) then Some(Mutated)
    else if HasTwin(rows, i) then Some(Duplicate)
    else if FollowsOn(rows, i) then None
    else if HasSibling(rows, i) && ParentExists(rows, i) then Some(ForkedRow)
    else Some(Dangling)
  }

  /** `verify` reports row `i`: an anomaly other than a fork. */
  predicate Reported(d: Digest, rows: seq<Row>, i: nat)
    requires i < |rows|
  {
    KindAt(d, rows, i).Some? && KindAt(d, rows, i) != Some(ForkedRow)
  }

  /** Every anomaly of the first `n` rows, in table order. */
  function Findings(d: Digest, rows: seq<Row>, n: nat): seq<Break>
    requires n <= |rows|
  {
    if n == 0 then []
    else
      Findings(d, rows, n - 1) +
      match KindAt(d, rows, n - 1)
      case None => []
      case Some(k) => [Break(rows[n - 1].id, k)]
  }

  /** `check()` */
  function Check(d: Digest, rows: seq<Row>): seq<Break> {
    Findings(d, rows, |rows|)
  }

  function NotForked(found: seq<Break>): seq<int> {
    if found == [] then []
    else NotForked(found[..|found| - 1]) + if found[|found| - 1].kind.ForkedRow? then [] else [found[|found| - 1].id]
  }

  /** `verify()` */
  function Verify(d: Digest, rows: seq<Row>): seq<int> {
    NotForked(Check(d, rows))
  }

  lemma {:induction false} FindingsAre(d: Digest, rows: seq<Row>, n: nat)
    requires n <= |rows|
    ensures forall b :: b in Findings(d, rows, n) <==> exists i :: 0 <= i < n && FoundAt(d, rows, i, b)
  {
    if n > 0 {
      FindingsAre(d, rows, n - 1);
      var before := Findings(d, rows, n - 1);
      forall b
        ensures b in Findings(d, rows, n) <==> b in before || FoundAt(d, rows, n - 1, b)
      {
      }
    }
  }

  predicate FoundAt(d: Digest, rows: seq<Row>, i: nat, b: Break)
    requires i < |rows|
  {
    KindAt(d, rows, i) == Some(b.kind) && rows[i].id == b.id
  }

  lemma {:induction false} NotForkedAre(found: seq<Break>)
    ensures forall id :: id in NotForked(found) <==> exists b :: b in found && !b.kind.ForkedRow? && b.id == id
  {
    if found != [] {
      var init, last := found[..|found| - 1], found[|found| - 1];
      NotForkedAre(init);
      assert found == init + [last];
      forall id | exists b :: b in found && !b.kind.ForkedRow? && b.id == id
        ensures id in NotForked(found)
      {
        var b :| b in found && !b.kind.ForkedRow? && b.id == id;
        if b in init {} else {
          assert b == last;
        }
      }
    }
  }

  /** An id is in `verify()` exactly when the row carrying it is reported; `check()` is empty exactly when no row is anomalous. */
  lemma VerifyReports(d: Digest, rows: seq<Row>)
    ensures forall id :: id in Verify(d, rows) <==> exists i :: 0 <= i < |rows| && Reported(d, rows, i) && rows[i].id == id
    ensures Verify(d, rows) == [] <==> forall i :: 0 <= i < |rows| ==> !Reported(d, rows, i)
    ensures Check(d, rows) == [] <==> forall i :: 0 <= i < |rows| ==> KindAt(d, rows, i).None?
  {
    var found := Check(d, rows);
    FindingsAre(d, rows, |rows|);
    NotForkedAre(found);
    forall i | 0 <= i < |rows| && Reported(d, rows, i)
      ensures rows[i].id in Verify(d, rows)
    {
      var b := Break(rows[i].id, KindAt(d, rows, i).value);
      assert FoundAt(d, rows, i, b);
      assert b in found;
    }
    forall id | id in Verify(d, rows)
      ensures exists i :: 0 <= i < |rows| && Reported(d, rows, i) && rows[i].id == id
    {
      var b :| b in found && !b.kind.ForkedRow? && b.id == id;
      var i :| 0 <= i < |rows| && FoundAt(d, rows, i, b);
      assert Reported(d, rows, i);
    }
    if Verify(d, rows) != [] {
      assert Verify(d, rows)[0] in Verify(d, rows);
    }
    forall i | 0 <= i < |rows| && KindAt(d, rows, i).Some?
      ensures found != []
    {
      var b := Break(rows[i].id, KindAt(d, rows, i).value);
      assert FoundAt(d, rows, i, b);
      assert b in found;
    }
    if found != [] {
      assert found[0] in found;
    }
  }

  // ----- keyed chains -----

  ghost predicate AllIntact(d: Digest, rows: seq<Row>) {
    forall i {:trigger Intact(d, rows[i])} :: 0 <= i < |rows| ==> Intact(d, rows[i])
  }

  ghost predicate Linked(rows: seq<Row>) {
    forall i :: 0 <= i < |rows| ==> FollowsOn(rows, i)
  }

  /** Every row carries its own digest and links to the row before it, the first to genesis. */
  ghost predicate KeyedChain(d: Digest, rows: seq<Row>) {
    AllIntact(d, rows) && Linked(rows)
  }

  ghost predicate HashesDistinct(rows: seq<Row>) {
    forall i, j :: 0 <= i < j < |rows| ==> rows[i].hash != rows[j].hash
  }

  /** Rows with the same digest claim the same predecessor and render the same fields. */
  lemma TwinsAgree(d: Digest, a: Row, b: Row)
    requires Ideal(d) && Intact(d, a) && Intact(d, b) && IsLink(d, a.prev) && IsLink(d, b.prev)
    requires a.hash == b.hash
    ensures a.prev == b.prev && d.render(a.fields) == d.render(b.fields)
  {
    EntryHashInjective(d, a.fields, a.prev, b.fields, b.prev);
  }

  lemma IntactIsLink(d: Digest, row: Row)
    requires Intact(d, row)
    ensures IsLink(d, Some(row.hash))
  {
  }

  lemma ChainLinks(d: Digest, rows: seq<Row>, i: nat)
    requires KeyedChain(d, rows) && i < |rows|
    ensures IsLink(d, rows[i].prev)
  {
    assert FollowsOn(rows, i);
    if i > 0 {
      IntactIsLink(d, rows[i - 1]);
    }
  }

  /** Where equal digests have equal predecessors, no digest repeats: the descent ends at genesis. */
  lemma {:induction false} DescentToGenesis(rows: seq<Row>, i: nat, j: nat)
    requires Linked(rows) && i < j < |rows|
    requires forall a, b :: 0 <= a < b < |rows| && rows[a].hash == rows[b].hash ==> rows[a].prev == rows[b].prev
    ensures rows[i].hash != rows[j].hash
  {
    assert FollowsOn(rows, i) && FollowsOn(rows, j);
    if i > 0 {
      DescentToGenesis(rows, i - 1, j - 1);
    }
  }

  lemma ChainHashesDistinct(d: Digest, rows: seq<Row>)
    requires Ideal(d) && KeyedChain(d, rows)
    ensures HashesDistinct(rows)
  {
    forall a, b | 0 <= a < b < |rows| && rows[a].hash == rows[b].hash
      ensures rows[a].prev == rows[b].prev
    {
      ChainLinks(d, rows, a);
      ChainLinks(d, rows, b);
      TwinsAgree(d, rows[a], rows[b]);
    }
    forall i, j | 0 <= i < j < |rows|
      ensures rows[i].hash != rows[j].hash
    {
      DescentToGenesis(rows, i, j);
    }
  }

  /** `check()` is empty exactly on keyed chains from genesis. */
  lemma CheckEmptyIffKeyedChain(d: Digest, rows: seq<Row>)
    requires Ideal(d)
    ensures Check(d, rows) == [] <==> KeyedChain(d, rows)
  {
    VerifyReports(d, rows);
    if KeyedChain(d, rows) {
      ChainHashesDistinct(d, rows);
      forall i | 0 <= i < |rows|
        ensures KindAt(d, rows, i).None?
      {
        assert Intact(d, rows[i]) && FollowsOn(rows, i);
      }
    } else if forall i :: 0 <= i < |rows| ==> KindAt(d, rows, i).None? {
      forall i | 0 <= i < |rows|
        ensures Intact(d, rows[i]) && FollowsOn(rows, i)
      {
        assert KindAt(d, rows, i).None?;
      }
      assert false;
    }
  }

  // ----- tables drawn from an honest chain -----

  /** `rows[k]` holds what the chain's row `src[k]` held, under any primary key. */
  ghost predicate DrawnFrom(rows: seq<Row>, chain: seq<Row>, src: seq<nat>) {
    && |rows| == |src|
    && forall k :: 0 <= k < |src| ==>
         src[k] < |chain| && rows[k].fields == chain[src[k]].fields
         && rows[k].prev == chain[src[k]].prev && rows[k].hash == chain[src[k]].hash
  }

  ghost predicate NoRepeat(src: seq<nat>) {
    forall i, j :: 0 <= i < j < |src| ==> src[i] != src[j]
  }

  ghost predicate IsPrefix(src: seq<nat>) {
    forall k :: 0 <= k < |src| ==> src[k] == k
  }

  /** Row `k` stands right behind its original predecessor, or is the genesis row standing first. */
  predicate InPlace(src: seq<nat>, k: nat)
    requires k < |src|
  {
    if k == 0 then src[k] == 0 else src[k] == src[k - 1] + 1
  }

  lemma SameHashSameSource(chain: seq<Row>, a: nat, b: nat)
    requires Linked(chain) && HashesDistinct(chain) && a < |chain| && b < |chain|
    ensures chain[a].hash == chain[b].hash <==> a == b
    ensures chain[a].prev == chain[b].prev <==> a == b
  {
    assert FollowsOn(chain, a) && FollowsOn(chain, b);
  }

  lemma DrawnIntact(d: Digest, rows: seq<Row>, chain: seq<Row>, src: seq<nat>, k: nat)
    requires AllIntact(d, chain) && DrawnFrom(rows, chain, src) && k < |src|
    ensures Intact(d, rows[k])
  {
    assert Intact(d, chain[src[k]]);
  }

  /** The verdict on a row of a drawn table, from where its content came from. */
  lemma DrawnKind(d: Digest, rows: seq<Row>, chain: seq<Row>, src: seq<nat>, k: nat)
    requires Ideal(d) && KeyedChain(d, chain) && DrawnFrom(rows, chain, src) && k < |src|
    ensures KindAt(d, rows, k) ==
      if exists j :: 0 <= j < |src| && j != k && src[j] == src[k] then Some(Duplicate)
      else if InPlace(src, k) then None else Some(Dangling)
  {
    ChainHashesDistinct(d, chain);
    DrawnIntact(d, rows, chain, src, k);
    forall j | 0 <= j < |src|
      ensures rows[j].hash == rows[k].hash <==> src[j] == src[k]
      ensures rows[j].prev == rows[k].prev <==> src[j] == src[k]
    {
      SameHashSameSource(chain, src[j], src[k]);
    }
    if k > 0 && src[k] > 0 {
      SameHashSameSource(chain, src[k - 1], src[k] - 1);
    }
    DrawnKindFrom(d, rows, chain, src, k);
  }

  lemma DrawnKindFrom(d: Digest, rows: seq<Row>, chain: seq<Row>, src: seq<nat>, k: nat)
    requires Linked(chain) && DrawnFrom(rows, chain, src) && k < |src| && Intact(d, rows[k])
    requires forall j :: 0 <= j < |src| ==> (rows[j].hash == rows[k].hash <==> src[j] == src[k])
    requires forall j :: 0 <= j < |src| ==> (rows[j].prev == rows[k].prev <==> src[j] == src[k])
    requires k > 0 && src[k] > 0 ==> (chain[src[k - 1]].hash == chain[src[k] - 1].hash <==> src[k - 1] == src[k] - 1)
    ensures KindAt(d, rows, k) ==
      if exists j :: 0 <= j < |src| && j != k && src[j] == src[k] then Some(Duplicate)
      else if InPlace(src, k) then None else Some(Dangling)
  {
    assert HasTwin(rows, k) <==> exists j :: 0 <= j < |src| && j != k && src[j] == src[k];
    assert HasSibling(rows, k) <==> exists j :: 0 <= j < |src| && j != k && src[j] == src[k];
    assert FollowsOn(chain, src[k]);
    assert FollowsOn(rows, k) <==> InPlace(src, k);
  }

  /** Drop, repeat or reorder rows of an honest chain: `verify()` is empty only on its prefixes. Cutting off the tail is the one edit it cannot see. */
  lemma DrawnVerifiesIffPrefix(d: Digest, rows: seq<Row>, chain: seq<Row>, src: seq<nat>)
    requires Ideal(d) && KeyedChain(d, chain) && DrawnFrom(rows, chain, src)
    ensures Verify(d, rows) == [] <==> IsPrefix(src)
  {
    VerifyReports(d, rows);
    forall k | 0 <= k < |src|
      ensures Reported(d, rows, k) <==> !InPlace(src, k) || exists j :: 0 <= j < |src| && j != k && src[j] == src[k]
    {
      DrawnKind(d, rows, chain, src, k);
    }
    if forall k :: 0 <= k < |src| ==> !Reported(d, rows, k) {
      InPlaceIsPrefix(src, |src|);
    }
  }

  lemma {:induction false} InPlaceIsPrefix(src: seq<nat>, n: nat)
    requires n <= |src| && forall k :: 0 <= k < n ==> InPlace(src, k)
    ensures forall k :: 0 <= k < n ==> src[k] == k
  {
    if n > 0 {
      InPlaceIsPrefix(src, n - 1);
      assert InPlace(src, n - 1);
    }
  }

  /** With no row repeated, the ids reported are those of the rows not standing behind their original predecessor, and no others. */
  lemma DrawnReportsMisplaced(d: Digest, rows: seq<Row>, chain: seq<Row>, src: seq<nat>)
    requires Ideal(d) && KeyedChain(d, chain) && DrawnFrom(rows, chain, src) && NoRepeat(src) && ById(rows)
    ensures forall k :: 0 <= k < |rows| ==> (rows[k].id in Verify(d, rows) <==> !InPlace(src, k))
  {
    VerifyReports(d, rows);
    forall k | 0 <= k < |rows|
      ensures rows[k].id in Verify(d, rows) <==> !InPlace(src, k)
    {
      DrawnKind(d, rows, chain, src, k);
      assert forall j :: 0 <= j < |rows| && rows[j].id == rows[k].id ==> j == k;
    }
  }

  // ----- edited rows -----

  /** The hashed input of a row: its rendered fields and the link it claims. */
  function Hashed(d: Digest, row: Row): (string, string) {
    (d.render(row.fields), OrEmpty(row.prev))
  }

  /** Same ids and stored digests, hashed columns rewritten at will. */
  ghost predicate Edited(before: seq<Row>, after: seq<Row>) {
    && |before| == |after|
    && forall i :: 0 <= i < |before| ==> after[i].id == before[i].id && after[i].hash == before[i].hash
  }

  /** A row's hashed columns: its fields and its link. An unset link and an empty one are hashed alike. */
  predicate SameColumns(a: Row, b: Row) {
    a.fields == b.fields && OrEmpty(a.prev) == OrEmpty(b.prev)
  }

  /** Rewrite the hashed columns of any rows of a sound table, links included and with any characters: the rows reported as mutated are, among those whose original text holds no separator, exactly the rewritten ones. */
  lemma EditsReportedAsMutated(sign: string -> string, before: seq<Row>, after: seq<Row>)
    requires Ideal(Keyed(sign)) && KeyedChain(Keyed(sign), before) && Edited(before, after)
    ensures forall i :: 0 <= i < |after| && SeparatorFree(before[i].fields) ==>
      (KindAt(Keyed(sign), after, i) == Some(Mutated) <==> !SameColumns(after[i], before[i]))
  {
    forall i | 0 <= i < |after| && SeparatorFree(before[i].fields)
      ensures Intact(Keyed(sign), after[i]) <==> SameColumns(after[i], before[i])
    {
      var a, b := after[i], before[i];
      assert Intact(Keyed(sign), b);
      ChainLinks(Keyed(sign), before, i);
      FreeEntryIsIdentified(sign, b.fields, b.prev, a.fields, a.prev);
    }
  }

  /** Every edit of a row is reported exactly when the row's original text fields hold no separator: for any other row there is an edit that is not. */
  lemma EveryEditReportedIff(sign: string -> string, before: seq<Row>, i: nat)
    requires Ideal(Keyed(sign)) && KeyedChain(Keyed(sign), before) && i < |before|
    ensures (forall after :: Edited(before, after) && !SameColumns(after[i], before[i]) ==> KindAt(Keyed(sign), after, i) == Some(Mutated))
      <==> SeparatorFree(before[i].fields)
  {
    if SeparatorFree(before[i].fields) {
      forall after | Edited(before, after) && !SameColumns(after[i], before[i])
        ensures KindAt(Keyed(sign), after, i) == Some(Mutated)
      {
        EditsReportedAsMutated(sign, before, after);
      }
    } else {
      var g := Collision(before[i].fields);
      var after := before[i := before[i].(fields := g)];
      assert Intact(Keyed(sign), before[i]);
      assert Edited(before, after) && !SameColumns(after[i], before[i]);
      assert KindAt(Keyed(sign), after, i) != Some(Mutated);
    }
  }

  ghost predicate LinksFree(rows: seq<Row>) {
    forall i :: 0 <= i < |rows| ==> SEPARATOR !in OrEmpty(rows[i].prev)
  }

  /** Where the rewritten links hold no separator, the rows reported are those rendered or linked differently, whatever their text fields hold. */
  lemma RenderedEditsReported(d: Digest, before: seq<Row>, after: seq<Row>)
    requires Ideal(d) && KeyedChain(d, before) && Edited(before, after) && LinksFree(after)
    ensures forall i :: 0 <= i < |after| ==>
      (KindAt(d, after, i) == Some(Mutated) <==> Hashed(d, after[i]) != Hashed(d, before[i]))
  {
    forall i | 0 <= i < |after|
      ensures Intact(d, after[i]) <==> Hashed(d, after[i]) == Hashed(d, before[i])
    {
      var a, b := after[i], before[i];
      assert Intact(d, b);
      ChainLinks(d, before, i);
      if Intact(d, a) {
        SplitHashed(d, a, b);
      }
    }
  }

  lemma SplitHashed(d: Digest, a: Row, b: Row)
    requires Ideal(d) && EntryHash(d, a.fields, a.prev) == EntryHash(d, b.fields, b.prev)
    requires SEPARATOR !in OrEmpty(a.prev) && SEPARATOR !in OrEmpty(b.prev)
    ensures Hashed(d, a) == Hashed(d, b)
  {
    Text.SplitAtLast(d.render(a.fields), OrEmpty(a.prev), d.render(b.fields), OrEmpty(b.prev), SEPARATOR);
  }

  // ----- the operator's report -----

  datatype Verdict = Tampered | ForkedChain | Sound

  datatype Report = Report(verdict: Verdict, rows: nat, checkedAt: int, findings: seq<Break>, acknowledged: set<int>)

  predicate Forgiven(b: Break, acknowledged: set<int>) {
    b.kind.ForkedRow? && b.id in acknowledged
  }

  function Outstanding(found: seq<Break>, acknowledged: set<int>): seq<Break> {
    if found == [] then []
    else
      var b := found[|found| - 1];
      Outstanding(found[..|found| - 1], acknowledged) + if Forgiven(b, acknowledged) then [] else [b]
  }

  function ForgivenIds(found: seq<Break>, acknowledged: set<int>): set<int> {
    set b | b in found && Forgiven(b, acknowledged) :: b.id
  }

  function VerdictOf(findings: seq<Break>): Verdict {
    if exists b :: b in findings && !b.kind.ForkedRow? then Tampered
    else if findings != [] then ForkedChain
    else Sound
  }

  function FreshReport(d: Digest, rows: seq<Row>, acknowledged: set<int>, stamp: int): Report {
    var found := Check(d, rows);
    var findings := Outstanding(found, acknowledged);
    Report(VerdictOf(findings), |rows|, stamp, findings, ForgivenIds(found, acknowledged))
  }

  lemma {:induction false} OutstandingAre(found: seq<Break>, acknowledged: set<int>)
    ensures forall b :: b in Outstanding(found, acknowledged) <==> b in found && !Forgiven(b, acknowledged)
  {
    if found != [] {
      OutstandingAre(found[..|found| - 1], acknowledged);
      assert found == found[..|found| - 1] + [found[|found| - 1]];
    }
  }

  /** A fresh report says `tampered` exactly when `verify()` has something to say, whatever is acknowledged; and it is quiet exactly when every anomaly is an acknowledged fork. */
  lemma AcknowledgementForgivesForksOnly(d: Digest, rows: seq<Row>, acknowledged: set<int>, stamp: int)
    ensures var r := FreshReport(d, rows, acknowledged, stamp);
      && (r.verdict == Tampered <==> Verify(d, rows) != [])
      && (r.verdict == Sound <==> forall b :: b in Check(d, rows) ==> b.kind.ForkedRow? && b.id in acknowledged)
  {
    var found := Check(d, rows);
    var findings := Outstanding(found, acknowledged);
    OutstandingAre(found, acknowledged);
    NotForkedAre(found);
    if Verify(d, rows) != [] {
      var id := Verify(d, rows)[0];
      assert id in NotForked(found);
      var b :| b in found && !b.kind.ForkedRow? && b.id == id;
      assert b in findings;
    }
    if b :| b in findings && !b.kind.ForkedRow? {
      assert b.id in NotForked(found);
    }
    if findings != [] {
      assert findings[0] in findings;
    }
  }
}
