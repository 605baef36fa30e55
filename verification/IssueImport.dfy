/** Importing a batch of issues into the board, and syncing a card with its issue. */
module IssueImport {
  import opened Prelude
  import opened Text
  import opened CardIntake

  const IMPORT_PRIORITY := 100

  datatype Issue = Issue(
    number: nat,
    title: string,
    body: string,
    labels: seq<string>,
    assignees: seq<string>,
    milestone: Option<string>,
    state: string,
    updatedAt: int,
    pullRequest: bool)

  /** The card fields the issue owns. */
  datatype Mirror = Mirror(
    title: string,
    description: Option<string>,
    labels: seq<string>,
    tier: Option<Tier>,
    assignee: Option<string>,
    milestone: Option<string>,
    issueState: Option<string>,
    syncError: Option<string>)

  /** A board card: the mirrored fields, the column, and the board's own fields. */
  datatype BoardCard = BoardCard(
    mirror: Mirror,
    status: Column,
    priority: int,
    acceptance: seq<string>,
    key: Option<string>,
    stageRuns: map<Stage, RunStatus>,
    repository: Option<int>,
    deleted: bool)

  /** The project's cards, tombstones included, by issue number: the unique index on the issue reference. */
  type Board = map<nat, BoardCard>

  // ----- the mapping -----

  const TIER_PREFIX := "factory:"

  function TierNamed(s: string): Option<Tier> {
    if s == "low" then Some(Low) else if s == "medium" then Some(Medium) else if s == "hard" then Some(Hard) else None
  }

  function LabelTier(name: string): Option<Tier> {
    var l := Lower(name);
    if TIER_PREFIX <= l then TierNamed(Strip(l[|TIER_PREFIX|..])) else None
  }

  /** The first label that names a tier decides. */
  function TierOf(labels: seq<string>): Option<Tier> {
    if labels == [] then None
    else if LabelTier(labels[0]).Some? then LabelTier(labels[0])
    else TierOf(labels[1..])
  }

  function TierWord(t: Tier): string {
    match t case Low => "low" case Medium => "medium" case Hard => "hard"
  }

  lemma TierWords(t: Tier)
    ensures TierWord(Low) == "low" && TierWord(Medium) == "medium" && TierWord(Hard) == "hard"
    ensures TierNamed(TierWord(t)) == Some(t) && Trimmed(TierWord(t)) && TierWord(t) != ""
    ensures forall s :: TierNamed(s) == Some(t) ==> s == TierWord(t)
  {
  }

  /** A label names a tier exactly when, in any case, it is the prefix and the tier's word with nothing but whitespace around the word. */
  lemma LabelNamesTierIff(name: string, t: Tier)
    ensures LabelTier(name) == Some(t) <==>
      exists before, after :: AllSpace(before) && AllSpace(after) && Lower(name) == "factory:" + (before + (match t case Low => "low" case Medium => "medium" case Hard => "hard") + after)
  {
    TierWords(t);
    var l := Lower(name);
    if LabelTier(name) == Some(t) {
      var rest := l[|TIER_PREFIX|..];
      var before, after := StripParts(rest);
      assert l == TIER_PREFIX + rest;
      assert rest == before + TierWord(t) + after;
    }
    if before, after :| AllSpace(before) && AllSpace(after) && l == TIER_PREFIX + (before + TierWord(t) + after) {
      assert l[|TIER_PREFIX|..] == before + TierWord(t) + after;
      StripPadded(before, TierWord(t), after);
    }
  }

  /** Label `i` names the tier, and none before it names any. */
  predicate FirstNames(labels: seq<string>, i: nat, t: Tier)
    requires i < |labels|
  {
    LabelTier(labels[i]) == Some(t) && TierOf(labels[..i]).None?
  }

  lemma {:induction false} NoTierBefore(labels: seq<string>)
    ensures TierOf(labels).None? <==> forall j :: 0 <= j < |labels| ==> LabelTier(labels[j]).None?
  {
    if labels != [] {
      NoTierBefore(labels[1..]);
      assert forall j :: 0 < j < |labels| ==> labels[j] == labels[1..][j - 1];
    }
  }

  lemma {:induction false} TierOfSplit(a: seq<string>, b: seq<string>)
    ensures TierOf(a + b) == if TierOf(a).Some? then TierOf(a) else TierOf(b)
  {
    if a == [] {
      assert a + b == b;
    } else {
      assert (a + b)[1..] == a[1..] + b;
      TierOfSplit(a[1..], b);
    }
  }

  /** The first label that names a tier decides it, whatever the others say: no label before it names one. */
  lemma {:induction false} FirstNamedTierDecides(labels: seq<string>, t: Tier)
    ensures TierOf(labels) == Some(t) <==> exists i :: 0 <= i < |labels| && FirstNames(labels, i, t)
    ensures forall i :: 0 <= i < |labels| && FirstNames(labels, i, t) ==> forall j :: 0 <= j < i ==> LabelTier(labels[j]).None?
  {
    forall i | 0 <= i < |labels| && FirstNames(labels, i, t)
      ensures TierOf(labels) == Some(t) && forall j :: 0 <= j < i ==> LabelTier(labels[j]).None?
    {
      assert labels == labels[..i] + labels[i..];
      TierOfSplit(labels[..i], labels[i..]);
      NoTierBefore(labels[..i]);
      assert forall j :: 0 <= j < i ==> labels[..i][j] == labels[j];
    }
    if TierOf(labels) == Some(t) {
      var i := FirstNaming(labels, t);
    }
  }

  lemma {:induction false} FirstNaming(labels: seq<string>, t: Tier) returns (i: nat)
    requires TierOf(labels) == Some(t)
    ensures i < |labels| && FirstNames(labels, i, t)
  {
    if LabelTier(labels[0]).Some? {
      i := 0;
    } else {
      var k := FirstNaming(labels[1..], t);
      i := k + 1;
      assert labels[..i] == [labels[0]] + labels[1..][..k];
      assert labels[..i][1..] == labels[1..][..k];
    }
  }

  function NonEmpty(s: string): Option<string> {
    if s == "" then None else Some(s)
  }

  function Mapping(issue: Issue): Mirror {
    Mirror(
      if issue.title == "" then "(untitled issue)" else issue.title,
      NonEmpty(issue.body),
      issue.labels,
      TierOf(issue.labels),
      if issue.assignees == [] then None else Some(issue.assignees[0]),
      issue.milestone,
      NonEmpty(issue.state),
      None)
  }

  function ImportStatus(state: string): Column {
    if state == "closed" then Finished else Backlog
  }

  predicate EnteredTheFactory(card: BoardCard) {
    card.key.Some? || card.stageRuns != map[]
  }

  /** The create body's length limits; an issue beyond them raises before anything is inserted. */
  predicate Creatable(issue: Issue) {
    && |issue.title| <= 512
    && (issue.assignees != [] ==> |issue.assignees[0]| <= 128)
    && (issue.milestone.Some? ==> |issue.milestone.value| <= 128)
  }

  // ----- one issue -----

  function Created(issue: Issue, repository: Option<int>): BoardCard {
    BoardCard(Mapping(issue), ImportStatus(issue.state), IMPORT_PRIORITY, [], None, map[], repository, false)
  }

  function Updated(card: BoardCard, issue: Issue): BoardCard {
    if card.deleted then card
    else card.(mirror := Mapping(issue), status := if EnteredTheFactory(card) then card.status else ImportStatus(issue.state))
  }

  function ImportOne(board: Board, issue: Issue, repository: Option<int>): Board {
    var n := issue.number;
    if n in board then board[n := Updated(board[n], issue)]
    else if Creatable(issue) then board[n := Created(issue, repository)]
    else board
  }

  function ImportAll(board: Board, issues: seq<Issue>, repository: Option<int>): Board {
    if issues == [] then board
    else ImportOne(ImportAll(board, issues[..|issues| - 1], repository), issues[|issues| - 1], repository)
  }

  // ----- what a batch does -----

  predicate Listed(issues: seq<Issue>, n: nat) {
    exists i :: 0 <= i < |issues| && issues[i].number == n
  }

  predicate CreatableListed(issues: seq<Issue>, n: nat) {
    exists i :: 0 <= i < |issues| && issues[i].number == n && Creatable(issues[i])
  }

  /** The last version of an issue in a batch. */
  function LastOf(issues: seq<Issue>, n: nat): (issue: Issue)
    requires Listed(issues, n)
    ensures issue in issues && issue.number == n
  {
    var last := |issues| - 1;
    if issues[last].number == n then issues[last]
    else
      assert Listed(issues[..last], n) by {
        var i :| 0 <= i < |issues| && issues[i].number == n;
        assert issues[..last][i] == issues[i];
      }
      LastOf(issues[..last], n)
  }

  /** The card for `n` after a batch, from the card before it. */
  function Result(board: Board, issues: seq<Issue>, repository: Option<int>, n: nat): Option<BoardCard> {
    if !Listed(issues, n) then (if n in board then Some(board[n]) else None)
    else if n in board then Some(Updated(board[n], LastOf(issues, n)))
    else if CreatableListed(issues, n) then Some(Created(LastOf(issues, n), repository))
    else None
  }

  function Lookup(board: Board, n: nat): Option<BoardCard> {
    if n in board then Some(board[n]) else None
  }

  /** A batch, duplicates and all, is the same as importing each issue's last version once. */
  lemma {:induction false} BatchIsPointwise(board: Board, issues: seq<Issue>, repository: Option<int>, n: nat)
    ensures Lookup(ImportAll(board, issues, repository), n) == Result(board, issues, repository, n)
  {
    if issues != [] {
      var last := |issues| - 1;
      var init := issues[..last];
      BatchIsPointwise(board, init, repository, n);
      assert issues == init + [issues[last]];
      OneMore(init, issues[last], n);
    }
  }

  /** Every imported issue that is not tombstoned mirrors its mapping; its column is the issue's unless the factory has touched the card; it is never newly `ready`; and nothing else of the card moves. */
  lemma ImportedCardsMirror(board: Board, issues: seq<Issue>, repository: Option<int>, n: nat)
    requires Listed(issues, n) && n in ImportAll(board, issues, repository)
    ensures var card, issue := ImportAll(board, issues, repository)[n], LastOf(issues, n);
      && (n in board && board[n].deleted ==> card == board[n])
      && (!card.deleted ==> card.mirror == Mapping(issue))
      && (!card.deleted ==> card.mirror.milestone == issue.milestone && card.mirror.syncError == None && (card.mirror.assignee.Some? <==> issue.assignees != []))
      && (!card.deleted && issue.assignees != [] ==> card.mirror.assignee == Some(issue.assignees[0]))
      && (!card.deleted && !EnteredTheFactory(card) ==> card.status == ImportStatus(issue.state))
      && (n in board && EnteredTheFactory(board[n]) ==> card.status == board[n].status)
      && (card.status == Ready ==> n in board && board[n].status == Ready && (EnteredTheFactory(board[n]) || board[n].deleted))
      && (n in board ==> card == board[n].(mirror := card.mirror, status := card.status))
      && (n !in board ==> card.priority == IMPORT_PRIORITY && card.acceptance == [] && !EnteredTheFactory(card) && !card.deleted && card.repository == repository)
  {
    BatchIsPointwise(board, issues, repository, n);
  }

  /** After a batch an issue has a card exactly when it had one before or some listed version fits the create limits; cards of other issues are untouched. */
  lemma ImportedCardsExist(board: Board, issues: seq<Issue>, repository: Option<int>, n: nat)
    ensures n in ImportAll(board, issues, repository) <==> n in board || CreatableListed(issues, n)
    ensures !Listed(issues, n) ==> Lookup(ImportAll(board, issues, repository), n) == Lookup(board, n)
  {
    BatchIsPointwise(board, issues, repository, n);
  }

  /** Importing the same batch again changes nothing. */
  lemma ImportIsIdempotent(board: Board, issues: seq<Issue>, repository: Option<int>)
    ensures var once := ImportAll(board, issues, repository); ImportAll(once, issues, repository) == once
  {
    var once := ImportAll(board, issues, repository);
    var twice := ImportAll(once, issues, repository);
    forall n: nat
      ensures Lookup(twice, n) == Lookup(once, n)
    {
      BatchIsPointwise(board, issues, repository, n);
      BatchIsPointwise(once, issues, repository, n);
    }
    LookupsAgree(twice, once);
  }

  lemma LookupsAgree(a: Board, b: Board)
    requires forall n: nat :: Lookup(a, n) == Lookup(b, n)
    ensures a == b
  {
    forall n: nat
      ensures n in a <==> n in b
      ensures n in a ==> a[n] == b[n]
    {
      assert Lookup(a, n) == Lookup(b, n);
    }
  }

  // ----- syncing one card with its issue -----

  function SyncStatus(state: string, status: Column): Column {
    if state == "closed" then Finished else if status == Finished then InProgress else status
  }

  /** The card after the provider-wins mirror of a sync. */
  function Synced(card: BoardCard, issue: Issue): BoardCard {
    var m := card.mirror.(
      syncError := None,
      title := if issue.title == "" then card.mirror.title else issue.title,
      description := NonEmpty(issue.body),
      labels := issue.labels,
      issueState := if issue.state == "" then card.mirror.issueState else Some(issue.state));
    card.(mirror := m, status := if issue.state == "" then card.status else SyncStatus(issue.state, card.status))
  }

  /** Sync is idempotent, moves nothing but the mirror and the column, and leaves tier, assignee and milestone to the board. */
  lemma SyncIsIdempotent(card: BoardCard, issue: Issue)
    ensures Synced(Synced(card, issue), issue) == Synced(card, issue)
    ensures Synced(card, issue) == card.(mirror := Synced(card, issue).mirror, status := Synced(card, issue).status)
    ensures var m, m' := card.mirror, Synced(card, issue).mirror; m'.tier == m.tier && m'.assignee == m.assignee && m'.milestone == m.milestone
    ensures issue.state != "" ==> (Synced(card, issue).status == Finished <==> issue.state == "closed")
  {
  }

  /** Syncing an imported card against the snapshot it was imported from changes nothing, exactly when the column already agrees with the issue; on a card the factory has not touched it always does. */
  lemma SyncAfterImport(board: Board, issues: seq<Issue>, repository: Option<int>, n: nat)
    requires Listed(issues, n) && n in ImportAll(board, issues, repository) && !ImportAll(board, issues, repository)[n].deleted
    ensures var card, issue := ImportAll(board, issues, repository)[n], LastOf(issues, n);
      && (Synced(card, issue) == card <==> issue.state == "" || (card.status == Finished <==> issue.state == "closed"))
      && (!EnteredTheFactory(card) ==> Synced(card, issue) == card)
      && Synced(card, issue).mirror == card.mirror
  {
    BatchIsPointwise(board, issues, repository, n);
  }

  // ----- the store -----

  datatype Tally = Imported | UpdatedCard | Skipped

  class BoardStore {
    var cards: Board

    constructor ()
      ensures cards == map[]
    {
      cards := map[];
    }

    /**
     Upsert one issue. `rival` is the row a concurrent import lands between the lookup and
     the insert; the unique index refuses the insert, and the call switches to updating it.
     */
    method UpsertIssue(issue: Issue, repository: Option<int>, rival: Option<BoardCard>) returns (what: Tally)
      modifies this
      ensures issue.number in old(cards) || rival.None? ==> cards == ImportOne(old(cards), issue, repository)
      ensures issue.number !in old(cards) && rival.Some? ==>
        var raced := old(cards)[issue.number := rival.value];
        cards == if Creatable(issue) then ImportOne(raced, issue, repository) else raced
      ensures what == Imported <==> issue.number !in old(cards) && rival.None? && Creatable(issue)
      ensures what == Skipped <==>
        if issue.number in old(cards) then old(cards)[issue.number].deleted
        else !Creatable(issue) || (rival.Some? && rival.value.deleted)
    {
      var n := issue.number;
      if n !in cards {
        if rival.Some? {
          cards := cards[n := rival.value];
        }
        if !Creatable(issue) {
          return Skipped;
        }
        if rival.None? {
          var fields := Mapping(issue);
          // The create body carries neither the labels nor the issue's state; a second write adds them.
          var bare := fields.(labels := [], issueState := None);
          cards := cards[n := BoardCard(bare, ImportStatus(issue.state), IMPORT_PRIORITY, [], None, map[], repository, false)];
          cards := cards[n := cards[n].(mirror := cards[n].mirror.(labels := fields.labels, issueState := fields.issueState))];
          return Imported;
        }
      }
      var existing := cards[n];
      if existing.deleted {
        return Skipped;
      }
      var changed := existing.(mirror := Mapping(issue));
      if !EnteredTheFactory(existing) {
        changed := changed.(status := ImportStatus(issue.state));
      }
      if changed != existing {
        cards := cards[n := changed];
      }
      what := UpdatedCard;
    }

    /** One issue of a batch nobody races. */
    method UpsertNext(issue: Issue, repository: Option<int>) returns (what: Tally)
      modifies this
      ensures cards == ImportOne(old(cards), issue, repository)
      ensures |cards| == |old(cards)| + if what == Imported then 1 else 0
      ensures what == Skipped <==> if issue.number in old(cards) then old(cards)[issue.number].deleted else !Creatable(issue)
    {
      what := UpsertIssue(issue, repository, None);
      assert cards.Keys == if what == Imported then old(cards).Keys + {issue.number} else old(cards).Keys;
      assert |cards| == |cards.Keys| && |old(cards)| == |old(cards).Keys|;
    }

    /** The batch: pull requests are dropped, every other issue is upserted in turn. */
    method ImportBatch(issues: seq<Issue>, repository: Option<int>) returns (imported: nat, updated: nat, skipped: nat)
      modifies this
      ensures cards == ImportAll(old(cards), WithoutPullRequests(issues), repository)
      ensures BatchShows(old(cards), issues, repository, cards)
      ensures imported == |cards| - |old(cards)| && skipped == |Skips(old(cards), issues, |issues|)|
      ensures imported + updated + skipped == |Plain(issues, |issues|)|
    {
      imported, updated, skipped := 0, 0, 0;
      for i := 0 to |issues|
        invariant cards == ImportAll(old(cards), WithoutPullRequests(issues[..i]), repository)
        invariant imported + updated + skipped == |Plain(issues, i)| && skipped == |Skips(old(cards), issues, i)|
        invariant |cards| == |old(cards)| + imported
      {
        BatchStep(old(cards), issues, i, repository);
        if !issues[i].pullRequest {
          var what := UpsertNext(issues[i], repository);
          match what {
            case Imported => imported := imported + 1;
            case UpdatedCard => updated := updated + 1;
            case Skipped => skipped := skipped + 1;
          }
        }
      }
      assert issues[..|issues|] == issues;
      BatchSaid(old(cards), issues, repository);
    }
  }

  // ----- what a listing asks for, pull requests among it -----

  /** The places of the first `n` that hold plain issues. */
  function Plain(issues: seq<Issue>, n: nat): set<nat>
    requires n <= |issues|
  {
    set i: nat | i < n && !issues[i].pullRequest
  }

  /** A plain issue that changes no card: its card is off the board, or there is none and no listing of it so far fits the create limits. */
  predicate SkippedAt(board: Board, issues: seq<Issue>, i: nat)
    requires i < |issues|
  {
    var n := issues[i].number;
    !issues[i].pullRequest && if n in board then board[n].deleted else forall j :: 0 <= j <= i && !issues[j].pullRequest && issues[j].number == n ==> !Fits(issues[j])
  }

  function Skips(board: Board, issues: seq<Issue>, n: nat): set<nat>
    requires n <= |issues|
  {
    set i: nat | i < n && SkippedAt(board, issues, i)
  }

  /** The last listing of a plain issue's number. */
  predicate LastPlain(issues: seq<Issue>, k: nat)
    requires k < |issues|
  {
    !issues[k].pullRequest && forall j :: k < j < |issues| && issues[j].number == issues[k].number ==> issues[j].pullRequest
  }

  predicate PlainListed(issues: seq<Issue>, n: nat) {
    exists i :: 0 <= i < |issues| && issues[i].number == n && !issues[i].pullRequest
  }

  predicate PlainCreatable(issues: seq<Issue>, n: nat) {
    exists i :: 0 <= i < |issues| && issues[i].number == n && !issues[i].pullRequest && Fits(issues[i])
  }

  /** Title, first assignee and milestone within their columns. */
  predicate Fits(issue: Issue) {
    |issue.title| <= 512 && (|issue.assignees| > 0 ==> |issue.assignees[0]| <= 128) && (issue.milestone.Some? ==> |issue.milestone.value| <= 128)
  }

  /** The mirrored fields as the issue has them; the tier is that of its first label naming one. */
  ghost predicate MirrorShows(m: Mirror, issue: Issue) {
    && m.title == (if issue.title == "" then "(untitled issue)" else issue.title)
    && m.description == (if issue.body == "" then None else Some(issue.body))
    && m.issueState == (if issue.state == "" then None else Some(issue.state))
    && m.labels == issue.labels && m.milestone == issue.milestone && m.syncError == None
    && m.assignee == (if issue.assignees == [] then None else Some(issue.assignees[0]))
    && (m.tier.Some? <==> exists i :: 0 <= i < |issue.labels| && LabelTier(issue.labels[i]).Some?)
    && (forall i :: 0 <= i < |issue.labels| && LabelTier(issue.labels[i]).Some? && (forall j :: 0 <= j < i ==> LabelTier(issue.labels[j]).None?) ==> m.tier == LabelTier(issue.labels[i]))
  }

  /** A card as the import leaves it: a tombstone as it was; a known card mirrored, in its issue's column unless it has a key or any dispatch record; a new one mirrored, in its issue's column and otherwise blank. */
  ghost predicate CardShows(before: Option<BoardCard>, issue: Issue, repository: Option<int>, after: BoardCard) {
    match before
    case Some(b) =>
      if b.deleted then after == b
      else
        && MirrorShows(after.mirror, issue)
        && after.status == (if b.key.Some? || b.stageRuns != map[] then b.status else if issue.state == "closed" then Finished else Backlog)
        && after == b.(mirror := after.mirror, status := after.status)
    case None =>
      && MirrorShows(after.mirror, issue)
      && after == BoardCard(after.mirror, if issue.state == "closed" then Finished else Backlog, 100, [], None, map[], repository, false)
  }

  /** What a listing makes of the board: a number no plain issue is listed under keeps what it had; any other gets what its last plain listing makes of its card, or a card of its own once a listing fits the create limits. */
  ghost predicate BatchShows(board: Board, issues: seq<Issue>, repository: Option<int>, after: Board) {
    && (forall n: nat :: !PlainListed(issues, n) ==> Lookup(after, n) == Lookup(board, n))
    && (forall n: nat :: PlainListed(issues, n) ==> (n in after <==> n in board || PlainCreatable(issues, n)))
    && (forall k :: 0 <= k < |issues| && LastPlain(issues, k) && issues[k].number in after ==>
          CardShows(Lookup(board, issues[k].number), issues[k], repository, after[issues[k].number]))
  }

  lemma MappingShows(issue: Issue)
    ensures MirrorShows(Mapping(issue), issue)
  {
    NoTierBefore(issue.labels);
    forall i | 0 <= i < |issue.labels| && LabelTier(issue.labels[i]).Some? && (forall j :: 0 <= j < i ==> LabelTier(issue.labels[j]).None?)
      ensures TierOf(issue.labels) == LabelTier(issue.labels[i])
    {
      var t := LabelTier(issue.labels[i]).value;
      NoTierBefore(issue.labels[..i]);
      assert FirstNames(issue.labels, i, t);
      FirstNamedTierDecides(issue.labels, t);
    }
  }

  lemma {:induction false} PlainOnes(issues: seq<Issue>, n: nat)
    ensures Listed(WithoutPullRequests(issues), n) <==> PlainListed(issues, n)
    ensures CreatableListed(WithoutPullRequests(issues), n) <==> PlainCreatable(issues, n)
  {
    if issues != [] {
      var m := |issues| - 1;
      var init := issues[..m];
      PlainOnes(init, n);
      assert issues == init + [issues[m]];
      assert PlainListed(issues, n) <==> PlainListed(init, n) || (issues[m].number == n && !issues[m].pullRequest);
      assert PlainCreatable(issues, n) <==> PlainCreatable(init, n) || (issues[m].number == n && !issues[m].pullRequest && Creatable(issues[m]));
      OneMore(WithoutPullRequests(init), issues[m], n);
    }
  }

  lemma {:induction false} LastPlainIsLast(issues: seq<Issue>, k: nat)
    requires k < |issues| && LastPlain(issues, k)
    ensures var kept := WithoutPullRequests(issues); Listed(kept, issues[k].number) && LastOf(kept, issues[k].number) == issues[k]
  {
    var m := |issues| - 1;
    if k < m {
      LastPlainBefore(issues, k);
      LastPlainIsLast(issues[..m], k);
    }
    LastOfOneMore(WithoutPullRequests(issues[..m]), issues[m]);
    if !issues[m].pullRequest {
      OneMore(WithoutPullRequests(issues[..m]), issues[m], issues[k].number);
    }
  }

  lemma LastOfOneMore(kept: seq<Issue>, last: Issue)
    ensures Listed(kept + [last], last.number) && LastOf(kept + [last], last.number) == last
  {
    OneMore(kept, last, last.number);
  }

  lemma LastPlainBefore(issues: seq<Issue>, k: nat)
    requires k < |issues| - 1 && LastPlain(issues, k)
    ensures var m := |issues| - 1; issues[..m][k] == issues[k] && LastPlain(issues[..m], k) && (issues[m].number == issues[k].number ==> issues[m].pullRequest)
  {
    var m := |issues| - 1;
    assert forall j :: 0 <= j < m ==> issues[..m][j] == issues[j];
  }

  lemma OneMore(kept: seq<Issue>, last: Issue, n: nat)
    ensures Listed(kept + [last], n) <==> Listed(kept, n) || last.number == n
    ensures CreatableListed(kept + [last], n) <==> CreatableListed(kept, n) || (last.number == n && Creatable(last))
    ensures Listed(kept + [last], n) ==> LastOf(kept + [last], n) == if last.number == n then last else LastOf(kept, n)
  {
    var more := kept + [last];
    assert more[..|kept|] == kept && more[|kept|] == last;
    assert forall i :: 0 <= i < |kept| ==> more[i] == kept[i];
  }

  lemma ResultShows(board: Board, kept: seq<Issue>, repository: Option<int>, n: nat)
    requires Listed(kept, n) && n in ImportAll(board, kept, repository)
    ensures CardShows(Lookup(board, n), LastOf(kept, n), repository, ImportAll(board, kept, repository)[n])
  {
    BatchIsPointwise(board, kept, repository, n);
    MappingShows(LastOf(kept, n));
    assert Lookup(ImportAll(board, kept, repository), n) == Some(ImportAll(board, kept, repository)[n]);
  }

  lemma BatchSaid(board: Board, issues: seq<Issue>, repository: Option<int>)
    ensures BatchShows(board, issues, repository, ImportAll(board, WithoutPullRequests(issues), repository))
  {
    var kept := WithoutPullRequests(issues);
    var after := ImportAll(board, kept, repository);
    forall n: nat
      ensures !PlainListed(issues, n) ==> Lookup(after, n) == Lookup(board, n)
      ensures PlainListed(issues, n) ==> (n in after <==> n in board || PlainCreatable(issues, n))
    {
      PlainOnes(issues, n);
      ImportedCardsExist(board, kept, repository, n);
    }
    forall k | 0 <= k < |issues| && LastPlain(issues, k) && issues[k].number in after
      ensures CardShows(Lookup(board, issues[k].number), issues[k], repository, after[issues[k].number])
    {
      LastPlainIsLast(issues, k);
      ResultShows(board, kept, repository, issues[k].number);
    }
  }

  lemma OneMorePlace(before: set<nat>, after: set<nat>, i: nat, there: bool)
    requires i !in before && forall j :: j in after <==> j in before || (j == i && there)
    ensures |after| == |before| + (if there then 1 else 0)
  {
    assert after == before + (if there then {i} else {});
  }

  lemma CountsStep(board: Board, issues: seq<Issue>, i: nat)
    requires i < |issues|
    ensures |Plain(issues, i + 1)| == |Plain(issues, i)| + (if issues[i].pullRequest then 0 else 1)
    ensures |Skips(board, issues, i + 1)| == |Skips(board, issues, i)| + (if SkippedAt(board, issues, i) then 1 else 0)
  {
    OneMorePlace(Plain(issues, i), Plain(issues, i + 1), i, !issues[i].pullRequest);
    OneMorePlace(Skips(board, issues, i), Skips(board, issues, i + 1), i, SkippedAt(board, issues, i));
  }

  lemma SkipsStep(board: Board, issues: seq<Issue>, i: nat, repository: Option<int>)
    requires i < |issues| && !issues[i].pullRequest
    ensures var n, before := issues[i].number, ImportAll(board, WithoutPullRequests(issues[..i]), repository);
      SkippedAt(board, issues, i) <==> if n in before then before[n].deleted else !Creatable(issues[i])
  {
    var n, init := issues[i].number, issues[..i];
    PlainOnes(init, n);
    CardBefore(board, WithoutPullRequests(init), repository, n);
    FitsBefore(issues, i);
  }

  /** Which cards a batch leaves, and which of them off the board. */
  lemma CardBefore(board: Board, kept: seq<Issue>, repository: Option<int>, n: nat)
    ensures var after := ImportAll(board, kept, repository);
      && (n in after <==> n in board || CreatableListed(kept, n))
      && (n in after ==> (after[n].deleted <==> n in board && board[n].deleted))
  {
    BatchIsPointwise(board, kept, repository, n);
    assert Lookup(ImportAll(board, kept, repository), n) == Result(board, kept, repository, n);
  }

  lemma FitsBefore(issues: seq<Issue>, i: nat)
    requires i < |issues| && !issues[i].pullRequest
    ensures (forall j :: 0 <= j <= i && !issues[j].pullRequest && issues[j].number == issues[i].number ==> !Fits(issues[j]))
      <==> !PlainCreatable(issues[..i], issues[i].number) && !Creatable(issues[i])
  {
    var n, init := issues[i].number, issues[..i];
    assert forall j :: 0 <= j < i ==> init[j] == issues[j];
    assert Fits(issues[i]) <==> Creatable(issues[i]);
    if j :| 0 <= j < |init| && init[j].number == n && !init[j].pullRequest && Fits(init[j]) {
      assert issues[j] == init[j];
    }
  }

  /** One place of the listing: what is kept of it, and how it counts. */
  lemma BatchStep(board: Board, issues: seq<Issue>, i: nat, repository: Option<int>)
    requires i < |issues|
    ensures var issue := issues[i];
      var before, after := ImportAll(board, WithoutPullRequests(issues[..i]), repository), ImportAll(board, WithoutPullRequests(issues[..i + 1]), repository);
      && after == (if issue.pullRequest then before else ImportOne(before, issue, repository))
      && |Plain(issues, i + 1)| == |Plain(issues, i)| + (if issue.pullRequest then 0 else 1)
      && |Skips(board, issues, i + 1)| == |Skips(board, issues, i)| + (if SkippedAt(board, issues, i) then 1 else 0)
      && (issue.pullRequest ==> !SkippedAt(board, issues, i))
      && (!issue.pullRequest ==> (SkippedAt(board, issues, i) <==> if issue.number in before then before[issue.number].deleted else !Creatable(issue)))
  {
    assert issues[..i + 1][..i] == issues[..i];
    ImportAllThen(board, WithoutPullRequests(issues[..i]), issues[i], repository);
    CountsStep(board, issues, i);
    if !issues[i].pullRequest {
      SkipsStep(board, issues, i, repository);
    }
  }

  lemma ImportAllThen(board: Board, issues: seq<Issue>, issue: Issue, repository: Option<int>)
    ensures ImportAll(board, issues + [issue], repository) == ImportOne(ImportAll(board, issues, repository), issue, repository)
  {
    assert (issues + [issue])[..|issues|] == issues;
  }

  function WithoutPullRequests(issues: seq<Issue>): seq<Issue> {
    if issues == [] then []
    else
      var last := issues[|issues| - 1];
      var kept := WithoutPullRequests(issues[..|issues| - 1]);
      if last.pullRequest then kept else kept + [last]
  }
}
