/**
 Comment threads of one project's cards: a warm group refreshed from an overlapping window,
 a cold group backfilled a few cards per pass, and the marker that claims completeness.
 Times are microseconds.
 */
module CommentSync {
  import opened Prelude

  const OVERLAP := 300_000_000

  datatype Comment = Comment(content: string, updatedAt: int)

  /** Comments by their provider-native id. */
  type Thread = map<string, Comment>

  /** What the store holds for one card: the marker is unset until its thread has been read in full. */
  datatype CardThread = CardThread(syncedAt: Option<int>, stored: Thread)

  /** The project's cards by issue number. */
  type Board = map<nat, CardThread>

  /** The host's threads by issue number, as visible at one moment. */
  type Host = map<nat, Thread>

  datatype Entry = Entry(id: string, comment: Comment)

  function ThreadOf(host: Host, n: nat): Thread {
    if n in host then host[n] else map[]
  }

  /**
   What a provider may answer for a window: comments of the thread, among them every one
   touched after `since`, and all of them when there is no window.
   */
  predicate Covers(got: Thread, thread: Thread, since: Option<int>) {
    && (forall id :: id in got ==> id in thread && got[id] == thread[id])
    && (forall id :: id in thread && (since.None? || thread[id].updatedAt > since.value) ==> id in got)
  }

  // ----- one card's write -----

  /** A list of comments as a thread; a later entry for an id replaces an earlier one. */
  function AsThread(entries: seq<Entry>): Thread {
    if entries == [] then map[]
    else var last := entries[|entries| - 1]; AsThread(entries[..|entries| - 1])[last.id := last.comment]
  }

  /** A listing the unique index lets in: it refuses a second insert of one id, and the transaction with it. */
  predicate Storable(stored: Thread, entries: seq<Entry>) {
    forall i, j :: 0 <= i < j < |entries| && entries[i].id == entries[j].id ==> entries[j].id in stored
  }

  /** The ids a listing would insert. */
  function NewIds(stored: Thread, entries: seq<Entry>): set<string> {
    set e | e in entries && e.id !in stored :: e.id
  }

  lemma NewIdsOneMore(stored: Thread, before: seq<Entry>, e: Entry)
    ensures NewIds(stored, before + [e]) == NewIds(stored, before) + (if e.id in stored then {} else {e.id})
  {
    assert forall x :: x in before + [e] <==> x in before || x == e;
  }

  lemma StorableWithOneMore(stored: Thread, before: seq<Entry>, e: Entry)
    ensures Storable(stored, before + [e]) <==> Storable(stored, before) && e.id !in NewIds(stored, before)
  {
    var more := before + [e];
    assert forall k :: 0 <= k < |before| ==> before[k] == more[k];
    if e.id in NewIds(stored, before) {
      var x :| x in before && x.id == e.id && e.id !in stored;
      var k :| 0 <= k < |before| && before[k] == x;
      assert more[k].id == more[|before|].id;
    } else {
      assert forall k :: 0 <= k < |before| && before[k].id == e.id && e.id !in stored ==> before[k] in before;
    }
  }

  lemma StorableOneMore(stored: Thread, entries: seq<Entry>, i: nat)
    requires i < |entries|
    ensures Storable(stored, entries[..i + 1]) <==> Storable(stored, entries[..i]) && entries[i].id !in NewIds(stored, entries[..i])
    ensures NewIds(stored, entries[..i + 1]) == NewIds(stored, entries[..i]) + (if entries[i].id in stored then {} else {entries[i].id})
    ensures !Storable(stored, entries[..i + 1]) ==> !Storable(stored, entries)
    ensures AsThread(entries[..i + 1]) == AsThread(entries[..i])[entries[i].id := entries[i].comment]
  {
    var before, more := entries[..i], entries[..i + 1];
    assert more == before + [entries[i]] && more[..i] == before;
    NewIdsOneMore(stored, before, entries[i]);
    StorableWithOneMore(stored, before, entries[i]);
    assert forall k :: 0 <= k < |more| ==> more[k] == entries[k];
  }

  /** Entry `i` is the last listed under its id. */
  predicate LastListed(entries: seq<Entry>, i: nat)
    requires i < |entries|
  {
    forall j :: i < j < |entries| ==> entries[j].id != entries[i].id
  }

  /** What a listing makes of a stored thread: the last entry of each id listed, and the thread as it was under every other id. */
  ghost predicate Stores(before: Thread, entries: seq<Entry>, after: Thread) {
    && (forall i :: 0 <= i < |entries| && LastListed(entries, i) ==> entries[i].id in after && after[entries[i].id] == entries[i].comment)
    && (forall id :: (forall i :: 0 <= i < |entries| ==> entries[i].id != id) ==> (id in after <==> id in before) && (id in before ==> after[id] == before[id]))
  }

  lemma {:induction false} AsThreadLists(entries: seq<Entry>)
    ensures forall i :: 0 <= i < |entries| && LastListed(entries, i) ==> entries[i].id in AsThread(entries) && AsThread(entries)[entries[i].id] == entries[i].comment
    ensures forall id :: id in AsThread(entries) ==> exists i :: 0 <= i < |entries| && entries[i].id == id
  {
    if entries != [] {
      var n := |entries| - 1;
      var init := entries[..n];
      AsThreadLists(init);
      assert entries == init + [entries[n]];
      forall i | 0 <= i < |entries| && LastListed(entries, i)
        ensures entries[i].id in AsThread(entries) && AsThread(entries)[entries[i].id] == entries[i].comment
      {
        if i < n {
          assert entries[n].id != entries[i].id;
          assert init[i] == entries[i] && LastListed(init, i);
        }
      }
      forall id | id in AsThread(entries)
        ensures exists i :: 0 <= i < |entries| && entries[i].id == id
      {
        if id in AsThread(init) {
          var i :| 0 <= i < |init| && init[i].id == id;
          assert entries[i].id == id;
        } else {
          assert entries[n].id == id;
        }
      }
    }
  }

  lemma AsThreadStores(before: Thread, entries: seq<Entry>)
    ensures Stores(before, entries, before + AsThread(entries))
  {
    AsThreadLists(entries);
  }

  /** There is only one such thread. */
  lemma StoresDetermines(before: Thread, entries: seq<Entry>, a: Thread, b: Thread)
    requires Stores(before, entries, a) && Stores(before, entries, b)
    ensures a == b
  {
    forall id
      ensures (id in a <==> id in b) && (id in a ==> a[id] == b[id])
    {
      if i :| 0 <= i < |entries| && entries[i].id == id {
        var k := LastOf(entries, i);
      }
    }
  }

  lemma LastOf(entries: seq<Entry>, i: nat) returns (k: nat)
    requires i < |entries|
    ensures i <= k < |entries| && entries[k].id == entries[i].id && LastListed(entries, k)
    decreases |entries| - i
  {
    if j :| i < j < |entries| && entries[j].id == entries[i].id {
      k := LastOf(entries, j);
    } else {
      k := i;
    }
  }

  // ----- which cards a pass reads -----

  function Warm(board: Board): set<nat> {
    set n | n in board && board[n].syncedAt.Some?
  }

  function Unread(board: Board): set<nat> {
    set n | n in board && board[n].syncedAt.None?
  }

  /** `sorted(cold)[:k]`, as a set. */
  function TakeSmallest(s: set<nat>, k: nat): (r: set<nat>)
    ensures r <= s && |r| == if k < |s| then k else |s|
    ensures forall x, y :: x in r && y in s - r ==> x <= y
    decreases k
  {
    if k == 0 || s == {} then {}
    else
      var m := MinOf(s);
      assert |s - {m}| == |s| - 1;
      var rest := TakeSmallest(s - {m}, k - 1);
      assert s - ({m} + rest) == (s - {m}) - rest;
      {m} + rest
  }

  function Cold(board: Board, backfillMax: nat): set<nat> {
    TakeSmallest(Unread(board), backfillMax)
  }

  /** The marker of a card that has been read; the refresh asks from the oldest of these, less the overlap. */
  predicate IsOldest(board: Board, oldest: int) {
    && (exists n :: n in Warm(board) && board[n].syncedAt.value == oldest)
    && (forall n :: n in Warm(board) ==> oldest <= board[n].syncedAt.value)
  }

  lemma OldestExists(board: Board, among: set<nat>)
    requires among != {} && among <= Warm(board)
    ensures exists n :: n in among && forall m :: m in among ==> board[n].syncedAt.value <= board[m].syncedAt.value
  {
    var n :| n in among;
    if m :| m in among && board[m].syncedAt.value < board[n].syncedAt.value {
      var rest := among - {n};
      assert m in rest && |rest| < |among|;
      OldestExists(board, rest);
      var k :| k in rest && forall x :: x in rest ==> board[k].syncedAt.value <= board[x].syncedAt.value;
      assert forall x :: x in among ==> x == n || x in rest;
      assert board[k].syncedAt.value <= board[m].syncedAt.value;
    }
  }

  ghost function Since(board: Board): Option<int>
    ensures Warm(board) == {} ==> Since(board) == None
    ensures Warm(board) != {} ==> Since(board).Some? && IsOldest(board, Since(board).value + OVERLAP)
  {
    if Warm(board) == {} then None
    else
      OldestExists(board, Warm(board));
      var n :| n in Warm(board) && forall m :: m in Warm(board) ==> board[n].syncedAt.value <= board[m].syncedAt.value;
      Some(board[n].syncedAt.value - OVERLAP)
  }

  // ----- a pass -----

  /** One group's read: the host as fetched, what the provider answered, the stamp taken after it, and the cards whose write went through. */
  datatype Group = Group(host: Host, got: map<nat, Thread>, at: int, landed: set<nat>)

  datatype Pass = Pass(warm: Group, cold: Group, backfillMax: nat)

  predicate Lands(group: Group, numbers: set<nat>, n: nat) {
    n in numbers && n in group.landed && n in group.got
  }

  function AfterGroup(board: Board, numbers: set<nat>, group: Group): Board {
    map n | n in board ::
      if Lands(group, numbers, n) then CardThread(Some(group.at), board[n].stored + group.got[n]) else board[n]
  }

  function AfterPass(board: Board, pass: Pass): Board {
    AfterGroup(AfterGroup(board, Warm(board), pass.warm), Cold(board, pass.backfillMax), pass.cold)
  }

  /** The provider answered the windows the pass asks for. */
  ghost predicate Honest(board: Board, pass: Pass) {
    && (forall n :: Lands(pass.warm, Warm(board), n) ==> Covers(pass.warm.got[n], ThreadOf(pass.warm.host, n), Since(board)))
    && (forall n :: Lands(pass.cold, Cold(board, pass.backfillMax), n) ==> Covers(pass.cold.got[n], ThreadOf(pass.cold.host, n), None))
  }

  predicate RefreshedBy(board: Board, pass: Pass, n: nat) {
    Lands(pass.warm, Warm(board), n) || Lands(pass.cold, Cold(board, pass.backfillMax), n)
  }

  /** The host snapshot a card's refresh was read from. */
  function SnapshotFor(board: Board, pass: Pass, n: nat): Host {
    if n in Warm(board) then pass.warm.host else pass.cold.host
  }

  /** A card whose read or write failed keeps its copy and its marker; so a pass that fails moves nothing. */
  lemma FailuresMoveNothing(board: Board, pass: Pass)
    ensures AfterPass(board, pass).Keys == board.Keys
    ensures forall n :: n in board && !RefreshedBy(board, pass, n) ==> AfterPass(board, pass)[n] == board[n]
    ensures forall n :: RefreshedBy(board, pass, n) ==>
      AfterPass(board, pass)[n].syncedAt == Some(if n in Warm(board) then pass.warm.at else pass.cold.at)
  {
  }

  // ----- no comment is lost -----

  datatype Event = NewCard(n: nat) | DropCard(n: nat) | Sync(pass: Pass)

  /** The stored board, and for each card the thread its last successful fetch saw. */
  datatype State = State(board: Board, lastSeen: map<nat, Thread>)

  ghost function Next(s: State, e: Event): State {
    match e
    case NewCard(n) => if n in s.board then s else s.(board := s.board[n := CardThread(None, map[])])
    case DropCard(n) => s.(board := s.board - {n})
    case Sync(pass) =>
      State(AfterPass(s.board, pass),
            map n | n in s.board.Keys + s.lastSeen.Keys ::
              if RefreshedBy(s.board, pass, n) then ThreadOf(SnapshotFor(s.board, pass, n), n)
              else if n in s.lastSeen then s.lastSeen[n] else map[])
  }

  ghost function Run(s: State, events: seq<Event>): State
    decreases |events|
  {
    if events == [] then s else Run(Next(s, events[0]), events[1..])
  }

  predicate SameVersion(seen: Thread, thread: Thread, id: string)
    requires id in thread
  {
    id in seen && seen[id] == thread[id]
  }

  /**
   The five-minute assumption, card by card: a version the card's last fetch did not see is
   stamped by the host less than five minutes before that fetch was marked, or later.
   */
  ghost predicate Timely(s: State, host: Host) {
    forall n, id :: n in Warm(s.board) && id in ThreadOf(host, n) ==>
      || SameVersion(if n in s.lastSeen then s.lastSeen[n] else map[], ThreadOf(host, n), id)
      || ThreadOf(host, n)[id].updatedAt > s.board[n].syncedAt.value - 300_000_000
  }

  ghost predicate TimelyEvent(s: State, e: Event) {
    e.Sync? ==> Timely(s, e.pass.warm.host) && Honest(s.board, e.pass)
  }

  ghost predicate TimelyRun(s: State, events: seq<Event>)
    decreases |events|
  {
    events == [] || (TimelyEvent(s, events[0]) && TimelyRun(Next(s, events[0]), events[1..]))
  }

  predicate Holds(stored: Thread, thread: Thread) {
    forall id :: id in thread ==> id in stored && stored[id] == thread[id]
  }

  /** A card marked complete holds everything its last fetch saw. */
  ghost predicate Complete(s: State) {
    forall n :: n in Warm(s.board) ==> n in s.lastSeen && Holds(s.board[n].stored, s.lastSeen[n])
  }

  lemma RefreshHoldsSnapshot(s: State, pass: Pass, n: nat)
    requires Complete(s) && Timely(s, pass.warm.host) && Honest(s.board, pass) && RefreshedBy(s.board, pass, n)
    ensures n in AfterPass(s.board, pass)
    ensures Holds(AfterPass(s.board, pass)[n].stored, ThreadOf(SnapshotFor(s.board, pass, n), n))
  {
    var thread := ThreadOf(SnapshotFor(s.board, pass, n), n);
    var since := if n in Warm(s.board) then Since(s.board) else None;
    var got := if n in Warm(s.board) then pass.warm.got[n] else pass.cold.got[n];
    var after := AfterPass(s.board, pass)[n];
    assert after.stored == s.board[n].stored + got;
    forall id | id in thread
      ensures id in after.stored && after.stored[id] == thread[id]
    {
      if id !in got {
        assert n in Warm(s.board) && thread[id].updatedAt <= since.value;
        assert SameVersion(s.lastSeen[n], thread, id);
      }
    }
  }

  lemma EventKeepsComplete(s: State, e: Event)
    requires Complete(s) && TimelyEvent(s, e)
    ensures Complete(Next(s, e))
  {
    var after := Next(s, e);
    forall n | n in Warm(after.board)
      ensures n in after.lastSeen && Holds(after.board[n].stored, after.lastSeen[n])
    {
      if e.Sync? {
        FailuresMoveNothing(s.board, e.pass);
        if RefreshedBy(s.board, e.pass, n) {
          RefreshHoldsSnapshot(s, e.pass, n);
        } else {
          assert n in Warm(s.board);
        }
      } else {
        assert n in Warm(s.board);
      }
    }
  }

  lemma {:induction false} RunsStayComplete(s: State, events: seq<Event>)
    requires Complete(s) && TimelyRun(s, events)
    ensures Complete(Run(s, events))
    decreases |events|
  {
    if events != [] {
      EventKeepsComplete(s, events[0]);
      RunsStayComplete(Next(s, events[0]), events[1..]);
    }
  }

  /** No comment is lost: after any run of passes, failures, new and dropped cards, every card the next pass refreshes holds every comment visible at that fetch. */
  lemma NoCommentIsLost(board: Board, events: seq<Event>, pass: Pass)
    requires Warm(board) == {} && TimelyRun(State(board, map[]), events)
    requires Timely(Run(State(board, map[]), events), pass.warm.host) && Honest(Run(State(board, map[]), events).board, pass)
    ensures var before := Run(State(board, map[]), events).board;
      forall n :: RefreshedBy(before, pass, n) ==>
        && n in Warm(AfterPass(before, pass))
        && Holds(AfterPass(before, pass)[n].stored, ThreadOf(SnapshotFor(before, pass, n), n))
  {
    var s := Run(State(board, map[]), events);
    RunsStayComplete(State(board, map[]), events);
    FailuresMoveNothing(s.board, pass);
    forall n | RefreshedBy(s.board, pass, n)
      ensures Holds(AfterPass(s.board, pass)[n].stored, ThreadOf(SnapshotFor(s.board, pass, n), n))
    {
      RefreshHoldsSnapshot(s, pass, n);
    }
  }

  // ----- where the five minutes come from -----

  /**
   The host over true time, and the bounds the overlap must pay for: how far a host stamp may
   lie behind the moment its version can be seen, how far the board's clock may run ahead, and
   how long one fetch may take.
   */
  datatype Clocks = Clocks(threads: int -> Host, lag: nat, ahead: nat, fetch: nat)

  /** A version that can be seen now and could not be seen at an earlier moment is stamped after that moment, less the lag. */
  ghost predicate HostStamps(c: Clocks) {
    forall t, u, n, id :: t <= u && id in ThreadOf(c.threads(u), n) && !SameVersion(ThreadOf(c.threads(t), n), ThreadOf(c.threads(u), n), id) ==>
      ThreadOf(c.threads(u), n)[id].updatedAt > t - c.lag
  }

  /** When a pass ran, in true time: each group's fetch from start to end, and the moment each card's thread was read. */
  datatype Times = Times(warmFrom: int, warmTo: int, coldFrom: int, coldTo: int, read: nat -> int)

  datatype Clocked = Clocked(event: Event, times: Times)

  /** A fetch reads each card at some moment of its span, ends in time, and is stamped by the board's clock after it. */
  ghost predicate Spans(c: Clocks, group: Group, numbers: set<nat>, start: int, end: int, read: nat -> int) {
    && start <= end <= start + c.fetch && group.at <= end + c.ahead
    && forall n :: n in numbers ==> start <= read(n) <= end && ThreadOf(group.host, n) == ThreadOf(c.threads(read(n)), n)
  }

  /** The board, the moment each complete card was last read, and the time up to which passes have run. */
  datatype History = History(state: State, read: map<nat, int>, now: int)

  ghost predicate OnTime(c: Clocks, h: History, e: Clocked) {
    match e.event
    case Sync(pass) =>
      && h.now <= e.times.warmFrom && h.now <= e.times.coldFrom
      && Spans(c, pass.warm, Warm(h.state.board), e.times.warmFrom, e.times.warmTo, e.times.read)
      && Spans(c, pass.cold, Cold(h.state.board, pass.backfillMax), e.times.coldFrom, e.times.coldTo, e.times.read)
      && Honest(h.state.board, pass)
    case _ => true
  }

  ghost function NextClocked(h: History, e: Clocked): History {
    match e.event
    case Sync(pass) =>
      History(Next(h.state, e.event),
              map n | n in h.state.board.Keys + h.read.Keys ::
                if RefreshedBy(h.state.board, pass, n) then e.times.read(n) else if n in h.read then h.read[n] else h.now,
              if e.times.warmTo < e.times.coldTo then e.times.coldTo else e.times.warmTo)
    case _ => h.(state := Next(h.state, e.event))
  }

  ghost function RunClocked(h: History, events: seq<Clocked>): History
    decreases |events|
  {
    if events == [] then h else RunClocked(NextClocked(h, events[0]), events[1..])
  }

  ghost predicate OnTimeRun(c: Clocks, h: History, events: seq<Clocked>)
    decreases |events|
  {
    events == [] || (OnTime(c, h, events[0]) && OnTimeRun(c, NextClocked(h, events[0]), events[1..]))
  }

  /** A complete card's marker lies at most one fetch and the board's lead past the moment its thread was read. */
  ghost predicate MarkerSound(c: Clocks, h: History, n: nat)
    requires n in Warm(h.state.board)
  {
    && n in h.read && n in h.state.lastSeen && h.read[n] <= h.now
    && h.state.lastSeen[n] == ThreadOf(c.threads(h.read[n]), n)
    && h.state.board[n].syncedAt.value <= h.read[n] + c.fetch + c.ahead
  }

  ghost predicate MarkersSound(c: Clocks, h: History) {
    forall n {:trigger MarkerSound(c, h, n)} :: n in Warm(h.state.board) ==> MarkerSound(c, h, n)
  }

  ghost predicate Budget(c: Clocks) {
    HostStamps(c) && c.lag + c.ahead + c.fetch <= 300_000_000
  }

  /** Lag, lead and fetch together within five minutes are what the card-by-card assumption needs. */
  lemma ClocksMakeTimely(c: Clocks, h: History, group: Group, start: int, end: int, read: nat -> int)
    requires Budget(c) && MarkersSound(c, h) && h.now <= start && Spans(c, group, Warm(h.state.board), start, end, read)
    ensures Timely(h.state, group.host)
  {
    forall n | n in Warm(h.state.board)
      ensures MarkerSound(c, h, n) && n in h.state.lastSeen
    {
    }
    forall n, id | n in Warm(h.state.board) && id in ThreadOf(group.host, n) && !SameVersion(h.state.lastSeen[n], ThreadOf(group.host, n), id)
      ensures ThreadOf(group.host, n)[id].updatedAt > h.state.board[n].syncedAt.value - OVERLAP
    {
      assert MarkerSound(c, h, n);
    }
  }

  lemma EventKeepsMarkers(c: Clocks, h: History, e: Clocked)
    requires MarkersSound(c, h) && OnTime(c, h, e)
    ensures MarkersSound(c, NextClocked(h, e))
  {
    var after := NextClocked(h, e);
    forall n | n in Warm(after.state.board)
      ensures MarkerSound(c, after, n)
    {
      if e.event.Sync? {
        FailuresMoveNothing(h.state.board, e.event.pass);
        if !RefreshedBy(h.state.board, e.event.pass, n) {
          assert MarkerSound(c, h, n);
        }
      } else {
        assert MarkerSound(c, h, n);
      }
    }
  }

  function Untimed(events: seq<Clocked>): seq<Event> {
    if events == [] then [] else [events[0].event] + Untimed(events[1..])
  }

  lemma {:induction false} ClockedRunIsTimely(c: Clocks, h: History, events: seq<Clocked>)
    requires Budget(c) && MarkersSound(c, h) && OnTimeRun(c, h, events)
    ensures TimelyRun(h.state, Untimed(events)) && MarkersSound(c, RunClocked(h, events))
    ensures RunClocked(h, events).state == Run(h.state, Untimed(events))
    decreases |events|
  {
    if events != [] {
      var e, after := events[0], NextClocked(h, events[0]);
      EventKeepsMarkers(c, h, e);
      if e.event.Sync? {
        ClocksMakeTimely(c, h, e.event.pass.warm, e.times.warmFrom, e.times.warmTo, e.times.read);
      }
      ClockedRunIsTimely(c, after, events[1..]);
      assert Untimed(events)[1..] == Untimed(events[1..]);
      assert after.state == Next(h.state, e.event);
    }
  }

  /** No comment is lost, from the clocks up: if host lag, the board clock's lead and one fetch together stay within five minutes, then after any run of passes, each card read at any moment of its fetch, every card the next pass refreshes holds every comment that could be seen when it was read. */
  lemma NoCommentIsLostOnTime(c: Clocks, board: Board, start: int, events: seq<Clocked>, e: Clocked)
    requires Budget(c) && Warm(board) == {} && e.event.Sync?
    requires OnTimeRun(c, History(State(board, map[]), map[], start), events)
    requires OnTime(c, RunClocked(History(State(board, map[]), map[], start), events), e)
    ensures var before := RunClocked(History(State(board, map[]), map[], start), events).state.board;
      forall n :: RefreshedBy(before, e.event.pass, n) ==>
        && n in Warm(AfterPass(before, e.event.pass))
        && Holds(AfterPass(before, e.event.pass)[n].stored, ThreadOf(c.threads(e.times.read(n)), n))
  {
    var h0 := History(State(board, map[]), map[], start);
    ClockedRunIsTimely(c, h0, events);
    var h := RunClocked(h0, events);
    ClocksMakeTimely(c, h, e.event.pass.warm, e.times.warmFrom, e.times.warmTo, e.times.read);
    NoCommentIsLost(board, Untimed(events), e.event.pass);
  }

  // ----- the backfill finishes -----

  /** Every card the pass asked for was read and written. */
  predicate Succeeded(board: Board, pass: Pass) {
    forall n :: n in Cold(board, pass.backfillMax) ==> Lands(pass.cold, Cold(board, pass.backfillMax), n)
  }

  lemma SuccessfulPassBackfills(board: Board, pass: Pass)
    requires Succeeded(board, pass)
    ensures |Unread(AfterPass(board, pass))| == if pass.backfillMax < |Unread(board)| then |Unread(board)| - pass.backfillMax else 0
  {
    FailuresMoveNothing(board, pass);
    var cold := Cold(board, pass.backfillMax);
    var after := AfterPass(board, pass);
    forall n
      ensures n in Unread(after) <==> n in Unread(board) - cold
    {
      if n in board && n in Unread(board) && n !in cold {
        assert !RefreshedBy(board, pass, n);
      }
    }
    assert Unread(after) == Unread(board) - cold;
    assert |Unread(board) - cold| == |Unread(board)| - |cold|;
  }

  ghost function AfterPasses(board: Board, passes: seq<Pass>): Board
    decreases |passes|
  {
    if passes == [] then board else AfterPasses(AfterPass(board, passes[0]), passes[1..])
  }

  /** The passes all succeed, each backfilling at most `b` cards. */
  ghost predicate Backfilling(board: Board, passes: seq<Pass>, b: nat)
    decreases |passes|
  {
    passes == [] || (passes[0].backfillMax == b && Succeeded(board, passes[0]) && Backfilling(AfterPass(board, passes[0]), passes[1..], b))
  }

  /** `n` less `k` times `b`, never below zero. */
  function Left(n: nat, b: nat, k: nat): nat {
    if k == 0 then n else Left(if b < n then n - b else 0, b, k - 1)
  }

  lemma {:induction false} BackfillProgress(board: Board, passes: seq<Pass>, b: nat)
    requires Backfilling(board, passes, b)
    ensures |Unread(AfterPasses(board, passes))| == Left(|Unread(board)|, b, |passes|)
    decreases |passes|
  {
    if passes != [] {
      var after := AfterPass(board, passes[0]);
      SuccessfulPassBackfills(board, passes[0]);
      BackfillProgress(after, passes[1..], b);
      assert AfterPasses(board, passes) == AfterPasses(after, passes[1..]);
    }
  }

  lemma {:induction false} LeftIs(n: nat, b: nat, k: nat)
    ensures Left(n, b, k) == if b * k < n then n - b * k else 0
  {
    if k > 0 {
      LeftIs(if b < n then n - b else 0, b, k - 1);
      assert b * k == b * (k - 1) + b;
    }
  }

  /** `n` unread cards are all read after `ceil(n / b)` successful passes, and not before. */
  lemma BackfillCompletes(board: Board, passes: seq<Pass>, b: nat)
    requires b > 0 && Backfilling(board, passes, b)
    ensures Unread(AfterPasses(board, passes)) == {} <==> |passes| >= (|Unread(board)| + b - 1) / b
  {
    BackfillProgress(board, passes, b);
    LeftIs(|Unread(board)|, b, |passes|);
    CeilingDivision(|Unread(board)|, b, |passes|);
    var left := Unread(AfterPasses(board, passes));
    assert left == {} <==> |left| == 0;
  }

  lemma CeilingDivision(n: nat, b: nat, k: nat)
    requires b > 0
    ensures b * k >= n <==> k >= (n + b - 1) / b
  {
    var q, r := (n + b - 1) / b, (n + b - 1) % b;
    assert n + b - 1 == b * q + r && 0 <= r < b;
    if k >= q {
      MulMono(b, q, k);
    } else {
      MulMono(b, k, q - 1);
      assert b * (q - 1) == b * q - b;
    }
  }

  lemma MulMono(b: nat, x: int, y: int)
    requires x <= y
    ensures b * x <= b * y
  {
  }

  // ----- the store -----

  /** The rows of one card after each listed comment is updated in place or inserted; none when the index refuses an insert. */
  method Upserted(existing: Thread, entries: seq<Entry>) returns (rows: Option<Thread>)
    ensures rows == if Storable(existing, entries) then Some(existing + AsThread(entries)) else None
  {
    var done, added: set<string> := existing, {};
    for i := 0 to |entries|
      invariant done == existing + AsThread(entries[..i])
      invariant added == NewIds(existing, entries[..i]) && Storable(existing, entries[..i])
    {
      var id := entries[i].id;
      StorableOneMore(existing, entries, i);
      if id !in existing {
        if id in added {
          return None;
        }
        added := added + {id};
      }
      done := done[id := entries[i].comment];
    }
    assert entries[..|entries|] == entries;
    rows := Some(done);
  }

  class CommentStore {
    var threads: Board

    constructor ()
      ensures threads == map[]
    {
      threads := map[];
    }

    /** Upsert one card's comments and mark its thread complete; a refused insert leaves both as they were. */
    method StoreComments(n: nat, entries: seq<Entry>, syncedAt: int) returns (stored: bool)
      requires n in threads
      modifies this
      ensures stored <==> Storable(old(threads)[n].stored, entries)
      ensures threads == if stored then old(threads)[n := CardThread(Some(syncedAt), old(threads)[n].stored + AsThread(entries))] else old(threads)
      ensures stored ==> n in threads && threads[n].syncedAt == Some(syncedAt) && Stores(old(threads)[n].stored, entries, threads[n].stored)
    {
      var rows := Upserted(threads[n].stored, entries);
      if rows.None? {
        return false;
      }
      AsThreadStores(threads[n].stored, entries);
      threads := threads[n := CardThread(Some(syncedAt), rows.value)];
      stored := true;
    }

    /** One group of a pass: nothing when the provider failed, else card by card what it answered. */
    method SyncGroup(numbers: set<nat>, reply: Option<map<nat, seq<Entry>>>, syncedAt: int) returns (landed: set<nat>)
      requires numbers <= threads.Keys
      modifies this
      ensures threads.Keys == old(threads).Keys
      ensures forall n :: n in landed <==> n in numbers && reply.Some? && n in reply.value && Storable(old(threads)[n].stored, reply.value[n])
      ensures forall n :: n in threads ==>
        threads[n] == if n in landed then CardThread(Some(syncedAt), old(threads)[n].stored + AsThread(reply.value[n])) else old(threads)[n]
    {
      landed := {};
      if reply.None? {
        return;
      }
      var todo := numbers * reply.value.Keys;
      while todo != {}
        invariant todo <= numbers * reply.value.Keys
        invariant threads.Keys == old(threads).Keys
        invariant landed !! todo
        invariant forall n :: n in landed ==> n in numbers && n in reply.value
        invariant forall n :: n in numbers && n in reply.value && n !in todo ==> (n in landed <==> Storable(old(threads)[n].stored, reply.value[n]))
        invariant forall n :: n in threads ==>
          threads[n] == if n in landed then CardThread(Some(syncedAt), old(threads)[n].stored + AsThread(reply.value[n])) else old(threads)[n]
        decreases todo
      {
        var n :| n in todo;
        var stored := StoreComments(n, reply.value[n], syncedAt);
        if stored {
          landed := landed + {n};
        }
        todo := todo - {n};
      }
    }

    /** The oldest marker among the cards read before. */
    method OldestMarker(warm: set<nat>) returns (oldest: int)
      requires warm == Warm(threads) && warm != {}
      ensures IsOldest(threads, oldest)
    {
      var first :| first in warm;
      oldest := threads[first].syncedAt.value;
      var todo := warm;
      while todo != {}
        invariant todo <= warm
        invariant exists n :: n in warm && threads[n].syncedAt.value == oldest
        invariant forall n :: n in warm - todo ==> oldest <= threads[n].syncedAt.value
        decreases todo
      {
        var n :| n in todo;
        if threads[n].syncedAt.value < oldest {
          oldest := threads[n].syncedAt.value;
        }
        todo := todo - {n};
      }
    }

    /** One whole pass: the warm group, then the cold one, each with its own reply and stamp. */
    method SyncComments(ghost pass: Pass, warmReply: Option<map<nat, seq<Entry>>>, coldReply: Option<map<nat, seq<Entry>>>,
                        backfillMax: nat, warmAt: int, coldAt: int) returns (warmSince: Option<int>)
      requires pass.backfillMax == backfillMax && pass.warm.at == warmAt && pass.cold.at == coldAt
      requires Answers(threads, warmReply, Warm(threads), pass.warm)
      requires Answers(threads, coldReply, Cold(threads, backfillMax), pass.cold)
      modifies this
      ensures threads == AfterPass(old(threads), pass) && warmSince == Since(old(threads))
      ensures PassStores(old(threads), threads, backfillMax, warmReply, coldReply, warmAt, coldAt)
    {
      ghost var before := threads;
      var warm, cold := Warm(threads), Cold(threads, backfillMax);
      warmSince := None;
      if warm != {} {
        var oldest := OldestMarker(warm);
        warmSince := Some(oldest - OVERLAP);
      }
      var warmLanded := SyncGroup(warm, warmReply, warmAt);
      GroupLanded(before, warm, warmReply, pass.warm, warmLanded, threads);
      ghost var warmed := threads;
      assert forall n :: n in cold ==> warmed[n] == before[n];
      var coldLanded := SyncGroup(cold, coldReply, coldAt);
      GroupLanded(warmed, cold, coldReply, pass.cold, coldLanded, threads);
      PassStoresEntries(before, pass, backfillMax, warmReply, coldReply);
    }
  }

  /** A provider reply for a group, card by card: what lands is what is listed and storable. */
  ghost predicate Answers(board: Board, reply: Option<map<nat, seq<Entry>>>, numbers: set<nat>, group: Group) {
    forall n :: n in numbers && n in board ==>
      && (Lands(group, numbers, n) <==> reply.Some? && n in reply.value && Storable(board[n].stored, reply.value[n]))
      && (Lands(group, numbers, n) ==> group.got[n] == AsThread(reply.value[n]))
  }

  /** What one card shows after its group was read: the listing its reply holds for it, and the stamp, or what it showed before. */
  ghost predicate CardStores(before: CardThread, after: CardThread, asked: bool, reply: Option<map<nat, seq<Entry>>>, n: nat, at: int) {
    if asked && reply.Some? && n in reply.value && Storable(before.stored, reply.value[n])
    then after.syncedAt == Some(at) && Stores(before.stored, reply.value[n], after.stored)
    else after == before
  }

  /** After a pass every card read before shows what the warm reply lists for it, every card in the backfill what the cold one does, and all others what they did. */
  ghost predicate PassStores(before: Board, after: Board, backfillMax: nat, warmReply: Option<map<nat, seq<Entry>>>, coldReply: Option<map<nat, seq<Entry>>>, warmAt: int, coldAt: int) {
    && after.Keys == before.Keys
    && forall n :: n in before ==>
         if before[n].syncedAt.Some? then CardStores(before[n], after[n], true, warmReply, n, warmAt)
         else CardStores(before[n], after[n], n in Cold(before, backfillMax), coldReply, n, coldAt)
  }

  lemma PassStoresEntries(board: Board, pass: Pass, backfillMax: nat, warmReply: Option<map<nat, seq<Entry>>>, coldReply: Option<map<nat, seq<Entry>>>)
    requires pass.backfillMax == backfillMax
    requires Answers(board, warmReply, Warm(board), pass.warm) && Answers(board, coldReply, Cold(board, backfillMax), pass.cold)
    ensures PassStores(board, AfterPass(board, pass), backfillMax, warmReply, coldReply, pass.warm.at, pass.cold.at)
  {
    var after := AfterPass(board, pass);
    forall n | n in board
      ensures if board[n].syncedAt.Some? then CardStores(board[n], after[n], true, warmReply, n, pass.warm.at)
              else CardStores(board[n], after[n], n in Cold(board, backfillMax), coldReply, n, pass.cold.at)
    {
      var reply := if board[n].syncedAt.Some? then warmReply else coldReply;
      if reply.Some? && n in reply.value {
        AsThreadStores(board[n].stored, reply.value[n]);
      }
    }
  }

  lemma GroupLanded(board: Board, numbers: set<nat>, reply: Option<map<nat, seq<Entry>>>, group: Group, landed: set<nat>, after: Board)
    requires numbers <= board.Keys == after.Keys && Answers(board, reply, numbers, group)
    requires forall n :: n in landed <==> n in numbers && reply.Some? && n in reply.value && Storable(board[n].stored, reply.value[n])
    requires forall n :: n in board ==>
      after[n] == if n in landed then CardThread(Some(group.at), board[n].stored + AsThread(reply.value[n])) else board[n]
    ensures after == AfterGroup(board, numbers, group)
  {
  }
}
