/**
 Reconciliation with a host: an incremental pass asks for what changed since a watermark
 rewound by a minute, a full pass for everything the backfill filter lets through; and when
 this is enough for no update to be missed. Times are microseconds.
 */
module IssueWatermark {
  import opened Prelude
  import opened CardIntake
  import opened IssueImport

  const OVERLAP := 60_000_000

  /** The issues a host shows at one moment, by number. */
  type Host = map<nat, Issue>

  /** The tenant's filters: the backfill state, and the label filter as a test on an issue. */
  datatype Filters = Filters(importState: string, labels: Issue -> bool)

  predicate InScope(f: Filters, issue: Issue) {
    f.labels(issue) && !issue.pullRequest
  }

  predicate StateMatches(f: Filters, issue: Issue) {
    f.importState == "all" || issue.state == f.importState
  }

  // ----- the watermark -----

  function Newest(issues: seq<Issue>): Option<int> {
    if issues == [] then None
    else
      var last := issues[|issues| - 1].updatedAt;
      match Newest(issues[..|issues| - 1])
      case None => Some(last)
      case Some(m) => Some(if m < last then last else m)
  }

  /** The `since` of the next pass: the newest stamp seen less the overlap, or the previous one when nothing was seen. */
  function NextWatermark(issues: seq<Issue>, previous: Option<int>): Option<int> {
    match Newest(issues) case None => previous case Some(m) => Some(m - OVERLAP)
  }

  predicate IsNewest(issues: seq<Issue>, stamp: int) {
    (forall i :: 0 <= i < |issues| ==> issues[i].updatedAt <= stamp) && (exists i :: 0 <= i < |issues| && issues[i].updatedAt == stamp)
  }

  /** The watermark moves a minute behind the newest issue seen, and nowhere when none was. */
  lemma WatermarkTrails(issues: seq<Issue>, previous: Option<int>)
    ensures issues == [] ==> NextWatermark(issues, previous) == previous
    ensures issues != [] ==> NextWatermark(issues, previous).Some? && IsNewest(issues, NextWatermark(issues, previous).value + 60_000_000)
  {
    NewestIsMax(issues);
  }

  lemma {:induction false} NewestIsMax(issues: seq<Issue>)
    ensures Newest(issues) == None <==> issues == []
    ensures Newest(issues).Some? ==>
      && (forall i :: 0 <= i < |issues| ==> issues[i].updatedAt <= Newest(issues).value)
      && (exists i :: 0 <= i < |issues| && issues[i].updatedAt == Newest(issues).value)
  {
    if issues != [] {
      NewestIsMax(issues[..|issues| - 1]);
    }
  }

  // ----- a pass -----

  /** Hosts file issues under their own number. */
  predicate Filed(host: Host) {
    forall n :: n in host ==> host[n].number == n
  }

  /** What a provider may answer: issues in scope, each once, and among them every one the window asks for. */
  ghost predicate Answer(f: Filters, host: Host, since: Option<int>, issues: seq<Issue>) {
    && Filed(host)
    && (forall i :: 0 <= i < |issues| ==> issues[i].number in host && host[issues[i].number] == issues[i] && InScope(f, issues[i]))
    && (forall i, j :: 0 <= i < j < |issues| ==> issues[i].number != issues[j].number)
    && (since.None? ==> forall n :: n in host && InScope(f, host[n]) ==> (host[n] in issues <==> StateMatches(f, host[n])))
    && (since.Some? ==> forall n :: n in host && InScope(f, host[n]) && host[n].updatedAt > since.value ==> host[n] in issues)
  }

  /**
   The board and watermark, and what the statements below speak of: the last version imported
   of each issue, the host at the last pass that returned anything, and at the first one.
   */
  datatype State = State(board: Board, watermark: Option<int>, imported: map<nat, Issue>, anchor: Host, base: Host)

  datatype Event =
    | Pass(host: Host, issues: seq<Issue>, full: bool)
    | BoardEdit(n: nat, card: BoardCard)

  /** A full pass ignores the watermark and asks as the first backfill did. */
  function Window(s: State, full: bool): Option<int> {
    if full then None else s.watermark
  }

  /** One pass of the import over an untruncated answer, no issue raising. A pass that sees nothing leaves the stored watermark. */
  function AfterPass(s: State, host: Host, issues: seq<Issue>, repository: Option<int>): State {
    State(
      ImportAll(s.board, issues, repository),
      NextWatermark(issues, s.watermark),
      map n | n in s.imported.Keys + host.Keys && (n in s.imported || Listed(issues, n)) :: if Listed(issues, n) then LastOf(issues, n) else s.imported[n],
      if issues == [] then s.anchor else host,
      if issues != [] && s.watermark.None? then host else s.base)
  }

  function Next(s: State, e: Event, repository: Option<int>): State {
    match e
    case Pass(host, issues, _) => AfterPass(s, host, issues, repository)
    case BoardEdit(n, card) => s.(board := s.board[n := card])
  }

  function Run(s: State, events: seq<Event>, repository: Option<int>): State
    decreases |events|
  {
    if events == [] then s else Run(Next(s, events[0], repository), events[1..], repository)
  }

  /**
   The one-minute assumption: what became visible since the last pass that returned anything
   is stamped less than a minute before the newest stamp visible then, or later.
   */
  ghost predicate Timely(f: Filters, s: State, host: Host) {
    forall n, m ::
      (n in host && InScope(f, host[n]) && !(n in s.anchor && s.anchor[n] == host[n]) && m in s.anchor && InScope(f, s.anchor[m])) ==>
        host[n].updatedAt > s.anchor[m].updatedAt - 60_000_000
  }

  /** A board edit may do anything to a card but rewrite its mirrored fields or bring back a tombstone. */
  predicate LeavesMirror(board: Board, n: nat, card: BoardCard) {
    n in board && card.mirror == board[n].mirror && (board[n].deleted ==> card.deleted)
  }

  ghost predicate Allowed(f: Filters, s: State, e: Event) {
    match e
    case Pass(host, issues, full) => Timely(f, s, host) && Answer(f, host, Window(s, full), issues)
    case BoardEdit(n, card) => LeavesMirror(s.board, n, card)
  }

  ghost predicate AllowedRun(f: Filters, s: State, events: seq<Event>, repository: Option<int>)
    decreases |events|
  {
    events == [] || (Allowed(f, s, events[0]) && AllowedRun(f, Next(s, events[0], repository), events[1..], repository))
  }

  /** The issue was there, in this very version, at the first backfill, and the backfill's state filter left it out. */
  predicate LeftOutOfBackfill(f: Filters, s: State, n: nat, issue: Issue) {
    n in s.base && s.base[n] == issue && !StateMatches(f, issue)
  }

  /** The version of an issue a host shows has been imported, or was left out by the backfill's filter. */
  predicate Known(f: Filters, s: State, n: nat, issue: Issue) {
    (n in s.imported && s.imported[n] == issue) || LeftOutOfBackfill(f, s, n, issue)
  }

  /** Cards mirror the last version imported; a version within the create limits has a card. */
  predicate Mirrors(s: State, n: nat)
    requires n in s.imported
  {
    && (n in s.board && !s.board[n].deleted ==> s.board[n].mirror == Mapping(s.imported[n]))
    && (Creatable(s.imported[n]) ==> n in s.board)
  }

  /** What the next incremental pass needs not be told again, or is bound to be told. */
  predicate Safe(f: Filters, s: State, n: nat, issue: Issue)
    requires s.watermark.Some?
  {
    Known(f, s, n, issue) || issue.updatedAt > s.watermark.value
  }

  ghost predicate AllSafe(f: Filters, s: State, host: Host)
    requires s.watermark.Some?
  {
    forall n :: n in host && InScope(f, host[n]) ==> Safe(f, s, n, host[n])
  }

  ghost predicate AllKnown(f: Filters, s: State, host: Host) {
    forall n :: n in host && InScope(f, host[n]) ==> Known(f, s, n, host[n])
  }

  predicate Anchored(f: Filters, s: State)
    requires s.watermark.Some?
  {
    exists m :: m in s.anchor && InScope(f, s.anchor[m]) && s.anchor[m].updatedAt == s.watermark.value + OVERLAP
  }

  ghost predicate Inv(f: Filters, s: State) {
    && (s.watermark.Some? ==> Anchored(f, s) && AllSafe(f, s, s.anchor))
    && (forall n :: n in s.imported ==> Mirrors(s, n))
  }

  /**
   A full pass that drops an update: it moves the watermark past a version in scope that was
   never imported and that the backfill's state filter keeps out of its answer.
   */
  ghost predicate Drops(f: Filters, s: State, host: Host, issues: seq<Issue>) {
    s.watermark.Some? && issues != [] && exists n ::
      && n in host && InScope(f, host[n]) && !Known(f, s, n, host[n])
      && !StateMatches(f, host[n]) && host[n].updatedAt <= Newest(issues).value - 60_000_000
  }

  // ----- one pass -----

  lemma AnswerLists(f: Filters, host: Host, since: Option<int>, issues: seq<Issue>, n: nat)
    requires Answer(f, host, since, issues)
    ensures Listed(issues, n) <==> n in host && host[n] in issues
    ensures Listed(issues, n) ==> LastOf(issues, n) == host[n] && InScope(f, host[n])
  {
    if Listed(issues, n) {
      var last := LastOf(issues, n);
      var j :| 0 <= j < |issues| && issues[j] == last;
    }
    if n in host && host[n] in issues {
      var i :| 0 <= i < |issues| && issues[i] == host[n];
      assert issues[i].number == n;
    }
  }

  lemma PassImports(f: Filters, s: State, host: Host, since: Option<int>, issues: seq<Issue>, repository: Option<int>, n: nat)
    requires Answer(f, host, since, issues)
    ensures var s' := AfterPass(s, host, issues, repository);
      && (n in s'.imported <==> n in s.imported || Listed(issues, n))
      && (Listed(issues, n) ==> s'.imported[n] == host[n])
      && (n in s.imported && !Listed(issues, n) ==> s'.imported[n] == s.imported[n])
  {
    AnswerLists(f, host, since, issues, n);
  }

  lemma PassKeepsMirrors(f: Filters, s: State, host: Host, since: Option<int>, issues: seq<Issue>, repository: Option<int>, n: nat)
    requires Answer(f, host, since, issues) && (n in s.imported ==> Mirrors(s, n))
    requires n in AfterPass(s, host, issues, repository).imported
    ensures Mirrors(AfterPass(s, host, issues, repository), n)
  {
    PassImports(f, s, host, since, issues, repository, n);
    AnswerLists(f, host, since, issues, n);
    BatchIsPointwise(s.board, issues, repository, n);
    if Listed(issues, n) && Creatable(host[n]) {
      var i :| 0 <= i < |issues| && issues[i] == host[n];
      assert CreatableListed(issues, n);
    }
  }

  /** After a pass on an imported project, a version the host shows is known exactly when it was known before or is among the answer. */
  lemma KnownAfter(f: Filters, s: State, host: Host, since: Option<int>, issues: seq<Issue>, repository: Option<int>, n: nat)
    requires Answer(f, host, since, issues) && s.watermark.Some? && n in host && InScope(f, host[n])
    ensures Known(f, AfterPass(s, host, issues, repository), n, host[n]) <==> Known(f, s, n, host[n]) || host[n] in issues
  {
    PassImports(f, s, host, since, issues, repository, n);
    AnswerLists(f, host, since, issues, n);
  }

  lemma NewVersionsAreSafe(f: Filters, s: State, host: Host)
    requires Inv(f, s) && s.watermark.Some? && Timely(f, s, host)
    ensures AllSafe(f, s, host)
  {
    forall n | n in host && InScope(f, host[n])
      ensures Safe(f, s, n, host[n])
    {
      if n in s.anchor && s.anchor[n] == host[n] {
        assert Safe(f, s, n, s.anchor[n]);
      } else {
        var m :| m in s.anchor && InScope(f, s.anchor[m]) && s.anchor[m].updatedAt == s.watermark.value + OVERLAP;
      }
    }
  }

  /** The next incremental pass is sure to leave nothing out exactly when every version in scope is known already or stamped after the watermark. */
  lemma NextPassCompletesIff(f: Filters, s: State, host: Host, repository: Option<int>)
    requires s.watermark.Some? && Filed(host)
    ensures (forall issues :: Answer(f, host, s.watermark, issues) ==> AllKnown(f, AfterPass(s, host, issues, repository), host)) <==> AllSafe(f, s, host)
  {
    if AllSafe(f, s, host) {
      forall issues | Answer(f, host, s.watermark, issues)
        ensures AllKnown(f, AfterPass(s, host, issues, repository), host)
      {
        SafeBecomesKnown(f, s, host, issues, repository);
      }
    } else {
      var n :| n in host && InScope(f, host[n]) && !Safe(f, s, n, host[n]);
      var issues := Newer(f, host, s.watermark.value, host.Keys);
      assert Answer(f, host, s.watermark, issues);
      KnownAfter(f, s, host, s.watermark, issues, repository, n);
    }
  }

  lemma SafeBecomesKnown(f: Filters, s: State, host: Host, issues: seq<Issue>, repository: Option<int>)
    requires s.watermark.Some? && Answer(f, host, s.watermark, issues) && AllSafe(f, s, host)
    ensures AllKnown(f, AfterPass(s, host, issues, repository), host)
  {
    forall n | n in host && InScope(f, host[n])
      ensures Known(f, AfterPass(s, host, issues, repository), n, host[n])
    {
      assert Safe(f, s, n, host[n]);
      KnownAfter(f, s, host, s.watermark, issues, repository, n);
    }
  }

  /** The first pass that returns anything: what it does not import, its state filter left out. */
  lemma BackfillKnowsItsScope(f: Filters, s: State, host: Host, issues: seq<Issue>, repository: Option<int>)
    requires Answer(f, host, None, issues) && s.watermark.None? && issues != []
    ensures AllKnown(f, AfterPass(s, host, issues, repository), host)
  {
    forall n | n in host && InScope(f, host[n])
      ensures Known(f, AfterPass(s, host, issues, repository), n, host[n])
    {
      PassImports(f, s, host, None, issues, repository, n);
      AnswerLists(f, host, None, issues, n);
    }
  }

  /** A full pass on a project in good order leaves a version that no incremental pass is bound to report exactly when it drops one. */
  lemma FullPassLosesIff(f: Filters, s: State, host: Host, issues: seq<Issue>, repository: Option<int>)
    requires Inv(f, s) && s.watermark.Some? && Timely(f, s, host) && Answer(f, host, None, issues)
    ensures AllSafe(f, AfterPass(s, host, issues, repository), host) <==> !Drops(f, s, host, issues)
  {
    var s' := AfterPass(s, host, issues, repository);
    NewVersionsAreSafe(f, s, host);
    NewestIsMax(issues);
    forall n | n in host && InScope(f, host[n])
      ensures Known(f, s', n, host[n]) <==> Known(f, s, n, host[n]) || StateMatches(f, host[n])
      ensures issues == [] ==> Safe(f, s', n, host[n])
    {
      KnownAfter(f, s, host, None, issues, repository, n);
      assert Safe(f, s, n, host[n]);
    }
    if !AllSafe(f, s', host) {
      var n :| n in host && InScope(f, host[n]) && !Safe(f, s', n, host[n]);
      assert Drops(f, s, host, issues);
    }
    if Drops(f, s, host, issues) {
      var n :| n in host && InScope(f, host[n]) && !Known(f, s, n, host[n]) && !StateMatches(f, host[n]) && host[n].updatedAt <= Newest(issues).value - OVERLAP;
      assert !Safe(f, s', n, host[n]);
    }
  }

  // ----- every run -----

  lemma PassAnchors(f: Filters, s: State, host: Host, since: Option<int>, issues: seq<Issue>, repository: Option<int>)
    requires Answer(f, host, since, issues) && issues != []
    ensures var s' := AfterPass(s, host, issues, repository); s'.watermark.Some? && Anchored(f, s') && s'.anchor == host
  {
    NewestIsMax(issues);
    var i :| 0 <= i < |issues| && issues[i].updatedAt == Newest(issues).value;
    assert issues[i].number in host && host[issues[i].number] == issues[i];
  }

  lemma PassKeepsInv(f: Filters, s: State, host: Host, issues: seq<Issue>, full: bool, repository: Option<int>)
    requires Inv(f, s) && Timely(f, s, host) && Answer(f, host, Window(s, full), issues)
    requires full ==> !Drops(f, s, host, issues)
    ensures Inv(f, AfterPass(s, host, issues, repository))
  {
    var s' := AfterPass(s, host, issues, repository);
    forall n | n in s'.imported
      ensures Mirrors(s', n)
    {
      PassKeepsMirrors(f, s, host, Window(s, full), issues, repository, n);
    }
    if issues == [] {
      if s.watermark.Some? {
        EmptyPassKeepsSafe(f, s, host, Window(s, full), repository);
      }
    } else {
      PassAnchors(f, s, host, Window(s, full), issues, repository);
      if s.watermark.None? {
        BackfillKnowsItsScope(f, s, host, issues, repository);
      } else if full {
        FullPassLosesIff(f, s, host, issues, repository);
      } else {
        NewVersionsAreSafe(f, s, host);
        SafeBecomesKnown(f, s, host, issues, repository);
      }
    }
  }

  lemma EmptyPassKeepsSafe(f: Filters, s: State, host: Host, since: Option<int>, repository: Option<int>)
    requires Inv(f, s) && s.watermark.Some? && Answer(f, host, since, [])
    ensures var s' := AfterPass(s, host, [], repository); s'.watermark == s.watermark && Anchored(f, s') && AllSafe(f, s', s'.anchor)
  {
    var s' := AfterPass(s, host, [], repository);
    assert s'.imported == s.imported;
    forall n | n in s.anchor && InScope(f, s.anchor[n])
      ensures Safe(f, s', n, s.anchor[n])
    {
      assert Safe(f, s, n, s.anchor[n]);
    }
    var m :| m in s.anchor && InScope(f, s.anchor[m]) && s.anchor[m].updatedAt == s.watermark.value + OVERLAP;
    assert s'.anchor[m].updatedAt == s'.watermark.value + OVERLAP;
  }

  lemma EditKeepsInv(f: Filters, s: State, n: nat, card: BoardCard)
    requires Inv(f, s) && LeavesMirror(s.board, n, card)
    ensures Inv(f, s.(board := s.board[n := card]))
  {
    var s' := s.(board := s.board[n := card]);
    forall k | k in s'.imported
      ensures Mirrors(s', k)
    {
      assert Mirrors(s, k);
    }
    if s.watermark.Some? {
      var m :| m in s.anchor && InScope(f, s.anchor[m]) && s.anchor[m].updatedAt == s.watermark.value + OVERLAP;
      assert s'.anchor[m].updatedAt == s'.watermark.value + OVERLAP;
      forall k | k in s'.anchor && InScope(f, s'.anchor[k])
        ensures Safe(f, s', k, s'.anchor[k])
      {
        assert Safe(f, s, k, s.anchor[k]);
      }
    }
  }

  /** No full pass of the run drops an update. */
  ghost predicate DropsNothing(f: Filters, s: State, events: seq<Event>, repository: Option<int>)
    decreases |events|
  {
    events == [] ||
    (&& (events[0].Pass? && events[0].full ==> !Drops(f, s, events[0].host, events[0].issues))
     && DropsNothing(f, Next(s, events[0], repository), events[1..], repository))
  }

  lemma {:induction false} RunKeepsInv(f: Filters, s: State, events: seq<Event>, repository: Option<int>)
    requires Inv(f, s) && AllowedRun(f, s, events, repository) && DropsNothing(f, s, events, repository)
    ensures Inv(f, Run(s, events, repository))
    decreases |events|
  {
    if events != [] {
      match events[0] {
        case Pass(host, issues, full) => PassKeepsInv(f, s, host, issues, full, repository);
        case BoardEdit(n, card) => EditKeepsInv(f, s, n, card);
      }
      RunKeepsInv(f, Next(s, events[0], repository), events[1..], repository);
    }
  }

  /** A project never imported, on any board. */
  function Fresh(board: Board): State {
    State(board, None, map[], map[], map[])
  }

  /** The board is level with the host: every version in scope has been imported, save one the first backfill's state filter left out and nobody has touched since, and live cards mirror their issues. */
  ghost predicate Level(f: Filters, s: State, host: Host) {
    forall n :: n in host && InScope(f, host[n]) ==>
      || LeftOutOfBackfill(f, s, n, host[n])
      || (&& n in s.imported && s.imported[n] == host[n]
          && (Creatable(host[n]) ==> n in s.board)
          && (n in s.board && !s.board[n].deleted ==> s.board[n].mirror == Mapping(host[n])))
  }

  lemma KnownIsLevel(f: Filters, s: State, host: Host)
    requires Inv(f, s) && AllKnown(f, s, host)
    ensures Level(f, s, host)
  {
    forall n | n in host && InScope(f, host[n])
      ensures Known(f, s, n, host[n]) && (n in s.imported ==> Mirrors(s, n))
    {
    }
  }

  /**
   No issue update is lost. After any run of incremental passes, full passes and board edits
   in which no full pass drops an update, the next incremental pass, at or after the first
   backfill, leaves the board level with the host.
   */
  lemma NoUpdateIsLost(f: Filters, board: Board, events: seq<Event>, host: Host, issues: seq<Issue>, repository: Option<int>)
    requires AllowedRun(f, Fresh(board), events, repository) && DropsNothing(f, Fresh(board), events, repository)
    requires Allowed(f, Run(Fresh(board), events, repository), Pass(host, issues, false))
    ensures var s := AfterPass(Run(Fresh(board), events, repository), host, issues, repository);
      s.watermark.Some? ==> Level(f, s, host)
  {
    var s0 := Run(Fresh(board), events, repository);
    var s := AfterPass(s0, host, issues, repository);
    RunKeepsInv(f, Fresh(board), events, repository);
    PassKeepsInv(f, s0, host, issues, false, repository);
    if s.watermark.Some? {
      if s0.watermark.Some? {
        NewVersionsAreSafe(f, s0, host);
        SafeBecomesKnown(f, s0, host, issues, repository);
      } else {
        BackfillKnowsItsScope(f, s0, host, issues, repository);
      }
      KnownIsLevel(f, s, host);
    }
  }

  /** Where the backfill filter lets every state through, nothing is lost over any run at all, full passes anywhere in it, and every pass levels the board. */
  lemma AllStatesLoseNothing(f: Filters, board: Board, events: seq<Event>, host: Host, issues: seq<Issue>, full: bool, repository: Option<int>)
    requires f.importState == "all" && AllowedRun(f, Fresh(board), events, repository)
    requires Allowed(f, Run(Fresh(board), events, repository), Pass(host, issues, full))
    ensures var s := AfterPass(Run(Fresh(board), events, repository), host, issues, repository);
      s.watermark.Some? ==> Level(f, s, host)
  {
    var s0 := Run(Fresh(board), events, repository);
    var s := AfterPass(s0, host, issues, repository);
    AllStatesDropNothing(f, Fresh(board), events, repository);
    RunKeepsInv(f, Fresh(board), events, repository);
    PassKeepsInv(f, s0, host, issues, full, repository);
    if s.watermark.Some? && !full {
      NoUpdateIsLost(f, board, events, host, issues, repository);
    } else if s.watermark.Some? {
      forall n | n in host && InScope(f, host[n])
        ensures Known(f, s, n, host[n])
      {
        assert host[n] in issues;
        PassImports(f, s0, host, None, issues, repository, n);
        AnswerLists(f, host, None, issues, n);
      }
      KnownIsLevel(f, s, host);
    }
  }

  lemma {:induction false} AllStatesDropNothing(f: Filters, s: State, events: seq<Event>, repository: Option<int>)
    requires f.importState == "all"
    ensures DropsNothing(f, s, events, repository)
    decreases |events|
  {
    if events != [] {
      AllStatesDropNothing(f, Next(s, events[0], repository), events[1..], repository);
    }
  }

  /** The host shows a version in scope that no incremental pass is bound to report. */
  ghost predicate Dropped(f: Filters, s: State, n: nat) {
    && s.watermark.Some? && Anchored(f, s) && Filed(s.anchor)
    && n in s.anchor && InScope(f, s.anchor[n]) && !Safe(f, s, n, s.anchor[n])
  }

  lemma PassSkipsDropped(f: Filters, s: State, n: nat, repository: Option<int>) returns (issues: seq<Issue>)
    requires Dropped(f, s, n)
    ensures Allowed(f, s, Pass(s.anchor, issues, false))
    ensures var s' := AfterPass(s, s.anchor, issues, repository);
      Dropped(f, s', n) && s'.anchor == s.anchor && Lookup(s'.board, n) == Lookup(s.board, n)
  {
    var host := s.anchor;
    issues := Newer(f, host, s.watermark.value, host.Keys);
    var m :| m in s.anchor && InScope(f, s.anchor[m]) && s.anchor[m].updatedAt == s.watermark.value + OVERLAP;
    assert host[m] in issues;
    NewestIsMax(issues);
    KnownAfter(f, s, host, s.watermark, issues, repository, n);
    PassAnchors(f, s, host, s.watermark, issues, repository);
    AnswerLists(f, host, s.watermark, issues, n);
    BatchIsPointwise(s.board, issues, repository, n);
    assert AfterPass(s, host, issues, repository).watermark.value >= s.watermark.value;
  }

  /** A dropped update stays lost: while the host stands still, any number of incremental passes can go by, each answered as asked, without it. */
  lemma {:induction false} DroppedUpdateStaysLost(f: Filters, s: State, n: nat, passes: nat, repository: Option<int>) returns (events: seq<Event>)
    requires Dropped(f, s, n)
    ensures |events| == passes && (forall i :: 0 <= i < passes ==> events[i].Pass? && !events[i].full && events[i].host == s.anchor)
    ensures AllowedRun(f, s, events, repository)
    ensures var s' := Run(s, events, repository); Dropped(f, s', n) && s'.anchor == s.anchor && Lookup(s'.board, n) == Lookup(s.board, n)
    decreases passes
  {
    events := [];
    if passes > 0 {
      var issues := PassSkipsDropped(f, s, n, repository);
      var first := Pass(s.anchor, issues, false);
      var later := DroppedUpdateStaysLost(f, Next(s, first, repository), n, passes - 1, repository);
      events := [first] + later;
      assert events[1..] == later;
    }
  }

  const ANY_LABEL: Issue -> bool := (issue: Issue) => true

  function Plain(n: nat, state: string, stamp: int): Issue {
    Issue(n, "t", "", [], [], None, state, stamp, false)
  }

  lemma FirstBackfill(f: Filters, host: Host, one: Issue, two: Issue, repository: Option<int>)
    requires f == Filters("open", ANY_LABEL) && one == Plain(1, "open", 0) && two == Plain(2, "open", 0)
    requires host == map[1 := one, 2 := two]
    ensures Allowed(f, Fresh(map[]), Pass(host, [one, two], false))
    ensures var s := AfterPass(Fresh(map[]), host, [one, two], repository);
      && s.watermark == Some(-OVERLAP) && s.anchor == host && s.base == host
      && 1 in s.imported && s.imported[1] == one && Lookup(s.board, 1) == Some(Created(one, repository))
  {
    var issues, s0 := [one, two], Fresh(map[]);
    assert Newest([one]) == Some(0) by { assert [one][..0] == []; }
    assert issues[..1] == [one];
    assert Newest(issues) == Some(0);
    assert Answer(f, host, None, issues) by {
      assert issues[0] == one && issues[1] == two;
    }
    assert CreatableListed(issues, 1) by { assert issues[0].number == 1 && Creatable(issues[0]); }
    BatchIsPointwise(s0.board, issues, repository, 1);
    PassImports(f, s0, host, None, issues, repository, 1);
    AnswerLists(f, host, None, issues, 1);
    assert Listed(issues, 1);
  }

  lemma OpenIsAnswered(f: Filters, host: Host, closed: Issue, touched: Issue)
    requires f == Filters("open", ANY_LABEL) && closed.number == 1 && touched.number == 2 && !closed.pullRequest && !touched.pullRequest
    requires closed.state == "closed" && touched.state == "open" && host == map[1 := closed, 2 := touched]
    ensures Answer(f, host, None, [touched]) && Newest([touched]) == Some(touched.updatedAt)
    ensures !StateMatches(f, closed) && !Listed([touched], 1)
  {
    var issues := [touched];
    assert issues[..0] == [];
    assert |closed.state| != |touched.state|;
    assert issues[0] == touched;
    assert forall i :: 0 <= i < |issues| ==> issues[i] == touched;
  }

  lemma FullReadsOpenOnly(f: Filters, s: State, host: Host, one: Issue, closed: Issue, touched: Issue, repository: Option<int>)
    requires Answer(f, host, None, [touched]) && Newest([touched]) == Some(touched.updatedAt) && !Listed([touched], 1)
    requires host == map[1 := closed, 2 := touched] && InScope(f, closed) && closed != one
    requires 0 < closed.updatedAt <= touched.updatedAt - OVERLAP
    requires s.watermark == Some(-OVERLAP) && 1 in s.imported && s.imported[1] == one && 1 in s.base && s.base[1] == one
    requires forall m :: m in s.anchor ==> s.anchor[m].updatedAt == 0
    ensures Allowed(f, s, Pass(host, [touched], true))
    ensures var s' := AfterPass(s, host, [touched], repository);
      && Dropped(f, s', 1) && s'.anchor == host && Lookup(s'.board, 1) == Lookup(s.board, 1)
  {
    var issues := [touched];
    PassAnchors(f, s, host, None, issues, repository);
    BatchIsPointwise(s.board, issues, repository, 1);
    PassImports(f, s, host, None, issues, repository, 1);
  }

  /**
   The default filter and two passes are enough: two open issues are imported, the first is
   closed, the second is touched a quarter of an hour later, and a full pass reads only the
   second. The first one's card reads open, and no later incremental pass need mend it.
   */
  lemma FullPassCanLose(repository: Option<int>, passes: nat) returns (events: seq<Event>)
    ensures var f := Filters("open", ANY_LABEL);
      var s := Run(Fresh(map[]), events, repository);
      && |events| == 2 + passes && AllowedRun(f, Fresh(map[]), events, repository)
      && 1 in s.anchor && s.anchor[1].state == "closed"
      && 1 in s.board && !s.board[1].deleted && s.board[1].mirror.issueState == Some("open")
  {
    var f := Filters("open", ANY_LABEL);
    var one, two := Plain(1, "open", 0), Plain(2, "open", 0);
    var closed, touched := Plain(1, "closed", 1_000_000_000), Plain(2, "open", 2_000_000_000);
    var before: Host, after: Host := map[1 := one, 2 := two], map[1 := closed, 2 := touched];
    var backfill, full := Pass(before, [one, two], false), Pass(after, [touched], true);
    var s0 := Fresh(map[]);
    FirstBackfill(f, before, one, two, repository);
    var s1 := Next(s0, backfill, repository);
    OpenIsAnswered(f, after, closed, touched);
    FullReadsOpenOnly(f, s1, after, one, closed, touched, repository);
    var s2 := Next(s1, full, repository);
    var later := DroppedUpdateStaysLost(f, s2, 1, passes, repository);
    events := [backfill, full] + later;
    assert events[1..][1..] == later;
    assert Run(s0, events, repository) == Run(s1, events[1..], repository) == Run(s2, later, repository);
    assert Lookup(s2.board, 1) == Lookup(Run(s2, later, repository).board, 1);
  }

  // ----- local edits -----

  /** A board edit of a mirrored field is overwritten by the next pass exactly when that pass returns the issue. */
  lemma LocalEditOverwrittenIffReturned(f: Filters, s: State, host: Host, issues: seq<Issue>, repository: Option<int>, n: nat)
    requires Answer(f, host, s.watermark, issues) && n in host && n in s.board && !s.board[n].deleted
    requires s.board[n].mirror != Mapping(host[n])
    ensures var after := AfterPass(s, host, issues, repository).board;
      n in after && (after[n].mirror == Mapping(host[n]) <==> host[n] in issues)
  {
    AnswerLists(f, host, s.watermark, issues, n);
    BatchIsPointwise(s.board, issues, repository, n);
  }

  /** An incremental pass is bound to return an issue in scope exactly when it is stamped after the watermark: an edit to the card of an older issue can outlive the next poll. */
  lemma LocalEditMustBeOverwrittenIff(f: Filters, host: Host, since: int, n: nat)
    requires Filed(host) && n in host && InScope(f, host[n])
    ensures (forall issues :: Answer(f, host, Some(since), issues) ==> host[n] in issues) <==> host[n].updatedAt > since
  {
    if host[n].updatedAt <= since {
      var issues := Newer(f, host, since, host.Keys);
      assert Answer(f, host, Some(since), issues);
      assert host[n] !in issues;
    }
  }

  /** The answer that returns only what it must. */
  lemma Newer(f: Filters, host: Host, since: int, among: set<nat>) returns (issues: seq<Issue>)
    requires Filed(host) && among <= host.Keys
    ensures forall i :: 0 <= i < |issues| ==> issues[i].number in among && host[issues[i].number] == issues[i] && InScope(f, issues[i]) && issues[i].updatedAt > since
    ensures forall i, j :: 0 <= i < j < |issues| ==> issues[i].number != issues[j].number
    ensures forall n :: n in among && InScope(f, host[n]) && host[n].updatedAt > since ==> host[n] in issues
    decreases among
  {
    issues := [];
    if among != {} {
      var n :| n in among;
      issues := Newer(f, host, since, among - {n});
      if InScope(f, host[n]) && host[n].updatedAt > since {
        issues := issues + [host[n]];
      }
    }
  }
}
