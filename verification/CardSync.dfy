/**
 Syncing a card with its issue: the issue is opened or adopted, mirrored down, and its printed
 reference stored, under the index that lets one card hold one reference text.
 */
module CardSync {
  import opened Prelude
  import opened Text
  import opened CardIntake
  import opened IssueImport
  import opened RepoRefs

  /** A card and the reference text it carries. */
  datatype Row = Row(ref: Option<string>, card: BoardCard)

  /** One tenant's cards by key, tombstones included. */
  type Rows = map<string, Row>

  /** What the host answered: the issue, opened or fetched, or a failure. */
  datatype Reply = Failed(reason: string, missing: bool) | Answered(issue: Issue)

  datatype Outcome = InStep | Refused | Errored

  /** The issue a card tracks: the one its reference names, else the one just opened in the project. */
  function Tracked(row: Row, project: string, issue: Issue): IssueRef {
    match ParseIssue(row.ref) case Some(r) => r case None => IssueRef(project, issue.number)
  }

  predicate Taken(rows: Rows, key: string, text: string) {
    exists k :: k in rows && k != key && rows[k].ref == Some(text)
  }

  function Mirrored(row: Row, project: string, issue: Issue): Row {
    Row(Some(PrintIssue(Tracked(row, project, issue))), Synced(row.card, issue))
  }

  function WithError(row: Row, reason: string): Row {
    row.(card := row.card.(mirror := row.card.mirror.(syncError := Some(reason))))
  }

  function WithFailure(row: Row, reason: string, missing: bool): Row {
    var marked := WithError(row, reason);
    if missing then marked.(card := marked.card.(mirror := marked.card.mirror.(issueState := Some("missing")))) else marked
  }

  const DUPLICATE := "another card already tracks this issue"

  function Sync(rows: Rows, key: string, project: string, reply: Reply): (Rows, Outcome)
    requires key in rows
  {
    var row := rows[key];
    match reply
    case Failed(reason, missing) => (rows[key := WithFailure(row, reason, missing)], Errored)
    case Answered(issue) => Write(rows, key, Mirrored(row, project, issue))
  }

  /** The write of a mirrored row, refused where another card holds the new text. */
  function Write(rows: Rows, key: string, next: Row): (Rows, Outcome)
    requires key in rows
  {
    if next.ref != rows[key].ref && next.ref.Some? && Taken(rows, key, next.ref.value) then (rows[key := WithError(rows[key], DUPLICATE)], Refused)
    else (rows[key := next], InStep)
  }

  lemma WriteAgain(rows: Rows, key: string, next: Row)
    requires key in rows && Write(rows, key, next).1 == InStep
    ensures Write(rows, key, next).0 == rows[key := next] && Write(rows[key := next], key, next) == (rows[key := next], InStep)
  {
    assert rows[key := next][key := next] == rows[key := next];
  }

  lemma WriteBesides(rows: Rows, a: string, b: string, next: Row, other: Row)
    requires a in rows && b in rows && a != b && Unique(rows) && next.ref.Some? && other.ref == next.ref
    requires Write(rows, a, next).1 == InStep
    ensures Write(rows, a, next).0 == rows[a := next] && Write(rows[a := next], b, other).1 == Refused
  {
    var after := rows[a := next];
    assert after[a].ref == other.ref && Taken(after, b, other.ref.value);
    assert rows[b].ref == next.ref ==> Taken(rows, a, next.ref.value);
  }

  /** A card is created or edited with a reference text of the caller's, refused when another card holds it. */
  function Adopt(rows: Rows, key: string, ref: Option<string>, card: BoardCard): Rows {
    if ref.Some? && Taken(rows, key, ref.value) then rows else rows[key := Row(ref, card)]
  }

  datatype Step = DoAdopt(key: string, ref: Option<string>, card: BoardCard) | DoSync(key: string, project: string, reply: Reply)

  function Next(rows: Rows, step: Step): Rows {
    match step
    case DoAdopt(key, ref, card) => Adopt(rows, key, ref, card)
    case DoSync(key, project, reply) => if key in rows then Sync(rows, key, project, reply).0 else rows
  }

  function Run(rows: Rows, steps: seq<Step>): Rows
    decreases |steps|
  {
    if steps == [] then rows else Run(Next(rows, steps[0]), steps[1..])
  }

  /** The index: no two cards hold one reference text. */
  predicate Unique(rows: Rows) {
    forall a, b :: a in rows && b in rows && rows[a].ref.Some? && rows[a].ref == rows[b].ref ==> a == b
  }

  /** Writing a row keeps the index when no other card holds its text. */
  lemma PutKeepsUnique(rows: Rows, key: string, row: Row)
    requires Unique(rows) && (row.ref.None? || !Taken(rows, key, row.ref.value))
    ensures Unique(rows[key := row])
  {
  }

  lemma OwnTextIsFree(rows: Rows, key: string)
    requires Unique(rows) && key in rows && rows[key].ref.Some?
    ensures !Taken(rows, key, rows[key].ref.value)
  {
  }

  lemma WriteKeepsUnique(rows: Rows, key: string, next: Row)
    requires Unique(rows) && key in rows
    ensures Unique(Write(rows, key, next).0)
  {
    if rows[key].ref.Some? {
      OwnTextIsFree(rows, key);
    }
    PutKeepsUnique(rows, key, if Write(rows, key, next).1 == Refused then WithError(rows[key], DUPLICATE) else next);
  }

  lemma StepKeepsUnique(rows: Rows, step: Step)
    requires Unique(rows)
    ensures Unique(Next(rows, step))
  {
    match step
    case DoAdopt(key, ref, card) =>
      if Next(rows, step) != rows {
        PutKeepsUnique(rows, key, Row(ref, card));
      }
    case DoSync(key, project, reply) =>
      if key in rows {
        match reply
        case Answered(issue) => WriteKeepsUnique(rows, key, Mirrored(rows[key], project, issue));
        case Failed(reason, missing) =>
          if rows[key].ref.Some? {
            OwnTextIsFree(rows, key);
          }
          PutKeepsUnique(rows, key, WithFailure(rows[key], reason, missing));
      }
  }

  lemma {:induction false} RunKeepsUnique(rows: Rows, steps: seq<Step>)
    requires Unique(rows)
    ensures Unique(Run(rows, steps))
    decreases |steps|
  {
    if steps != [] {
      StepKeepsUnique(rows, steps[0]);
      RunKeepsUnique(Next(rows, steps[0]), steps[1..]);
    }
  }

  /** The card's reference is the printed form of an issue. */
  predicate InPrintedForm(row: Row) {
    ParseIssue(row.ref).Some? && row.ref == Some(PrintIssue(ParseIssue(row.ref).value))
  }

  /** A sync that succeeds leaves the card with the printed reference of the very issue it tracked, mirroring it, and touches no other card. */
  lemma SyncedCardIsPrinted(rows: Rows, key: string, project: string, issue: Issue)
    requires key in rows && ProjectPath(project) && Sync(rows, key, project, Answered(issue)).1 == InStep
    ensures var after := Sync(rows, key, project, Answered(issue)).0;
      && InPrintedForm(after[key]) && ParseIssue(after[key].ref) == Some(Tracked(rows[key], project, issue))
      && after[key].card == Synced(rows[key].card, issue)
      && after.Keys == rows.Keys && forall k :: k in rows && k != key ==> after[k] == rows[k]
  {
    TrackedIsPath(rows[key], project, issue);
    PrintedIssueParses(Tracked(rows[key], project, issue));
  }

  lemma TrackedIsPath(row: Row, project: string, issue: Issue)
    requires ProjectPath(project)
    ensures ProjectPath(Tracked(row, project, issue).project)
  {
    if row.ref.Some? && ParseIssue(row.ref).Some? {
      IssueGrammar(row.ref.value, ParseIssue(row.ref).value);
    }
  }

  /** The issue a card tracks after a success is the one its reference named, and for a card that named none the one just opened, under the number the host gave it. */
  lemma TracksNamedOrOpened(rows: Rows, key: string, project: string, issue: Issue)
    requires key in rows && ProjectPath(project) && Sync(rows, key, project, Answered(issue)).1 == InStep
    ensures var before, after := ParseIssue(rows[key].ref), ParseIssue(Sync(rows, key, project, Answered(issue)).0[key].ref);
      && (before.Some? ==> after == before)
      && (before.None? ==> after == Some(IssueRef(project, issue.number)))
  {
    SyncedCardIsPrinted(rows, key, project, issue);
  }

  /** What a success writes on the card: the issue's title and state where it has any, its body and labels whatever they are, no error, and a column that is done exactly for a closed issue; the rest is the board's. */
  lemma SyncedFields(card: BoardCard, issue: Issue)
    ensures var after := Synced(card, issue);
      var m := card.mirror;
      && after.mirror.title == (if issue.title == "" then m.title else issue.title)
      && after.mirror.description == (if issue.body == "" then None else Some(issue.body))
      && after.mirror.labels == issue.labels && after.mirror.syncError == None
      && after.mirror.issueState == (if issue.state == "" then m.issueState else Some(issue.state))
      && after.mirror.tier == m.tier && after.mirror.assignee == m.assignee && after.mirror.milestone == m.milestone
      && after.status == (if issue.state == "" then card.status
                          else if issue.state == "closed" then CardIntake.Finished
                          else if card.status == CardIntake.Finished then InProgress else card.status)
      && after == card.(mirror := after.mirror, status := after.status)
  {
  }

  /** A failed call writes its reason, and that the issue is gone exactly when the host says it is missing; nothing else. */
  lemma FailureMarksOnly(rows: Rows, key: string, project: string, reason: string, missing: bool)
    requires key in rows
    ensures var (after, outcome) := Sync(rows, key, project, Reply.Failed(reason, missing));
      var was, now := rows[key], after[key];
      && outcome == Errored && after == rows[key := now] && now.ref == was.ref
      && now.card.mirror.syncError == Some(reason)
      && now.card.mirror.issueState == (if missing then Some("missing") else was.card.mirror.issueState)
      && now.card == was.card.(mirror := was.card.mirror.(syncError := now.card.mirror.syncError, issueState := now.card.mirror.issueState))
  {
  }

  /** Over any run of creates, edits and syncs, two cards whose references are in printed form never track the same issue; so no issue has two cards that have both been synced since their references were set. */
  lemma OnePrintedCardPerIssue(steps: seq<Step>, a: string, b: string)
    requires var rows := Run(map[], steps); a in rows && b in rows && a != b && InPrintedForm(rows[a]) && InPrintedForm(rows[b])
    ensures var rows := Run(map[], steps); ParseIssue(rows[a].ref) != ParseIssue(rows[b].ref)
  {
    RunKeepsUnique(map[], steps);
  }

  /** A sync is refused exactly when the card's own text is not yet the printed one and another card holds that; a refusal leaves the reference, the board's fields and all mirrored ones but the error as they were. */
  lemma SyncRefusedIff(rows: Rows, key: string, project: string, issue: Issue)
    requires key in rows && Unique(rows)
    ensures var (after, outcome) := Sync(rows, key, project, Answered(issue));
      var text := PrintIssue(Tracked(rows[key], project, issue));
      && (outcome == Refused <==> exists k :: k in rows && k != key && rows[k].ref == Some(text))
      && (outcome == Refused ==> rows[key].ref != Some(text) && after == rows[key := rows[key].(card := rows[key].card.(mirror := rows[key].card.mirror.(syncError := Some(DUPLICATE))))])
  {
    WriteRefusedIff(rows, key, Mirrored(rows[key], project, issue));
  }

  lemma WriteRefusedIff(rows: Rows, key: string, next: Row)
    requires key in rows && Unique(rows) && next.ref.Some?
    ensures var (after, outcome) := Write(rows, key, next);
      && (outcome == Refused <==> exists k :: k in rows && k != key && rows[k].ref == next.ref)
      && (outcome == Refused ==> rows[key].ref != next.ref && after == rows[key := WithError(rows[key], DUPLICATE)])
  {
    if k :| k in rows && k != key && rows[k].ref == next.ref {
      assert rows[key].ref != next.ref;
      assert Taken(rows, key, next.ref.value);
    }
  }

  lemma MirroredAgain(row: Row, project: string, issue: Issue)
    requires ProjectPath(project)
    ensures Tracked(Mirrored(row, project, issue), project, issue) == Tracked(row, project, issue)
    ensures Mirrored(Mirrored(row, project, issue), project, issue) == Mirrored(row, project, issue)
  {
    TrackedIsPath(row, project, issue);
    PrintedIssueParses(Tracked(row, project, issue));
    SyncIsIdempotent(row.card, issue);
  }

  /** After a success the same issue syncs again without a change and without a refusal. */
  lemma ResyncChangesNothing(rows: Rows, key: string, project: string, issue: Issue)
    requires key in rows && ProjectPath(project) && Sync(rows, key, project, Answered(issue)).1 == InStep
    ensures var after := Sync(rows, key, project, Answered(issue)).0;
      Sync(after, key, project, Answered(issue)) == (after, InStep)
  {
    MirroredAgain(rows[key], project, issue);
    WriteAgain(rows, key, Mirrored(rows[key], project, issue));
  }

  /** Two cards can name one issue in two spellings until one of them is synced; from then on the other's sync is refused, for as long as the first keeps its reference. */
  lemma SecondSpellingIsRefused(rows: Rows, a: string, b: string, project: string, issue: Issue)
    requires a in rows && b in rows && a != b && Unique(rows)
    requires SameIssue(rows[a], rows[b])
    requires Sync(rows, a, project, Answered(issue)).1 == InStep
    ensures var after := Sync(rows, a, project, Answered(issue)).0;
      Sync(after, b, project, Answered(issue)).1 == Refused
  {
    SameTracked(rows[a], rows[b], project, issue);
    WriteBesides(rows, a, b, Mirrored(rows[a], project, issue), Mirrored(rows[b], project, issue));
  }

  /** Both references name the same issue, however they spell it. */
  predicate SameIssue(a: Row, b: Row) {
    ParseIssue(a.ref).Some? && ParseIssue(a.ref) == ParseIssue(b.ref)
  }

  lemma SameTracked(a: Row, b: Row, project: string, issue: Issue)
    requires SameIssue(a, b)
    ensures Tracked(a, project, issue) == Tracked(b, project, issue)
  {
  }

  // ----- the store -----

  class SyncStore {
    var rows: Rows

    constructor ()
      ensures rows == map[]
    {
      rows := map[];
    }

    /** One card: on an answer, collect what differs from the issue and write it if anything does; a refused write or a failure is marked on the card. */
    method SyncCard(key: string, project: string, reply: Reply) returns (outcome: Outcome, changed: bool)
      requires key in rows
      modifies this
      ensures (rows, outcome) == Sync(old(rows), key, project, reply)
      ensures outcome == InStep ==> (changed <==> rows != old(rows))
    {
      var row := rows[key];
      if reply.Failed? {
        rows := rows[key := WithFailure(row, reply.reason, reply.missing)];
        return Errored, true;
      }
      var card := MirrorDown(row.card, reply.issue);
      var next := Row(Some(PrintIssue(Tracked(row, project, reply.issue))), card);
      changed := next != row;
      if changed {
        if next.ref != row.ref && Taken(rows, key, next.ref.value) {
          rows := rows[key := WithError(row, DUPLICATE)];
          return Refused, true;
        }
        rows := rows[key := next];
        assert rows[key] != old(rows)[key];
      } else {
        assert rows == old(rows)[key := row];
      }
      outcome := InStep;
    }

    /** The fields the issue overwrites, each only where the issue says something about it. */
    method MirrorDown(card: BoardCard, issue: Issue) returns (next: BoardCard)
      ensures next == Synced(card, issue)
    {
      next := card.(mirror := card.mirror.(syncError := None));
      if issue.title != "" {
        next := next.(mirror := next.mirror.(title := issue.title));
      }
      next := next.(mirror := next.mirror.(description := NonEmpty(issue.body), labels := issue.labels));
      if issue.state != "" {
        next := next.(mirror := next.mirror.(issueState := Some(issue.state)));
        if issue.state == "closed" {
          next := next.(status := CardIntake.Finished);
        } else if card.status == CardIntake.Finished {
          next := next.(status := InProgress);
        }
      }
    }
  }
}
