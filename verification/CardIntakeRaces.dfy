/**
 Intake calls that overlap. A call reads the card, may wait for a door to answer, and then
 writes columns it computed from what it read; nothing holds the card in between.
 */
module CardIntakeRaces {
  import opened Prelude
  import opened CardIntake
  import CardIntakeRuns

  type Step = CardIntakeRuns.Step

  /**
   What an open call does next. A send has gone out to its door and waits to be recorded; the
   others are one write of the store, or the read back after an advance. `event` is the
   completion event whose column mapping is still to come.
   */
  datatype Do =
    | Record(stage: Stage, reply: Reply, event: Option<WorkItem>)
    | Block(event: Option<WorkItem>)
    | Queue(env: Env)
    | SettleRecords(item: WorkItem, env: Env)
    | ReadBack(item: WorkItem)
    | MapColumn(status: Column)

  /** An open call: the card as it last saw it, and its next write. */
  datatype Window = Window(seen: Card, doing: Do)

  datatype World = World(row: Card, open: map<nat, Window>)

  datatype Event = Begin(p: nat, call: Step) | Commit(p: nat)

  // ----- one call, write by write -----

  /** Guard and send one stage; nothing when it is skipped or refused. */
  function Dispatch(seen: Card, stage: Stage, env: Env, event: Option<WorkItem>): Option<Do> {
    if StageStatus(seen, stage) == Some(Done) || RefuseReason(seen, stage, env.project).Some? then None
    else Some(Record(stage, env.reply, event))
  }

  function MapFrom(seen: Card, item: WorkItem): Option<Do> {
    match CardStatusFor(item, Pending(seen))
    case None => None
    case Some(status) => if status == seen.status then None else Some(MapColumn(status))
  }

  function AdvanceFrom(seen: Card, item: WorkItem, env: Env): Option<Do> {
    if AnyStage(seen, Dispatched) then MapFrom(seen, item)
    else if AnyStage(seen, Failed) then Some(Block(Some(item)))
    else
      match NextQueued(seen)
      case None => MapFrom(seen, item)
      case Some(s) =>
        match Dispatch(seen, s, env, Some(item))
        case None => Some(ReadBack(item))
        case Some(send) => Some(send)
  }

  /** What a call sets out to do on the card it has read. */
  function Decide(seen: Card, call: Step): Option<Do> {
    match call
    case Promote(env) =>
      var stage := DefaultStage(seen);
      if seen.status != Ready || seen.tier.None? || StageStatus(seen, stage) in {Some(Dispatched), Some(Done)} then None
      else if stage != Plan && !env.project then Some(Block(None))
      else Some(Record(stage, env.reply, None))
    case Named(stage, env) => Dispatch(seen, stage, env, None)
    case Start(env) =>
      if seen.tier.None? || AnyStage(seen, Dispatched) || Todo(seen) == [] then None else Some(Queue(env))
    case Event(item, env) =>
      if seen.key != Some(item.key) then None
      else if Settle(seen, item) != seen then Some(SettleRecords(item, env))
      else AdvanceFrom(seen, item, env)
    case Edit(_, _) => None
  }

  /** The columns a write carries are those of the card the call saw; the others stay as the row has them. */
  function Written(row: Card, win: Window): Card {
    match win.doing
    case Record(stage, reply, _) =>
      var sent := Send(win.seen, stage, reply);
      row.(runs := sent.runs, status := sent.status, key := if reply.Accepted? then sent.key else row.key)
    case Block(_) => row.(status := Blocked)
    case Queue(_) => row.(runs := Requeued(win.seen).runs)
    case SettleRecords(item, _) => row.(runs := Settle(win.seen, item).runs)
    case ReadBack(_) => row
    case MapColumn(status) => row.(status := status)
  }

  /** What the call goes on to do with the row its write returned. */
  function Afterwards(row: Card, doing: Do): Option<Do> {
    match doing
    case Record(_, _, event) => if event.Some? then Some(ReadBack(event.value)) else None
    case Block(event) => if event.Some? then MapFrom(row, event.value) else None
    case Queue(env) => if Todo(row) == [] then None else Dispatch(row, Todo(row)[0], env, None)
    case SettleRecords(item, env) => AdvanceFrom(row, item, env)
    case ReadBack(item) => MapFrom(row, item)
    case MapColumn(_) => None
  }

  function Opened(w: World, p: nat, seen: Card, doing: Option<Do>): World {
    match doing
    case None => w.(open := w.open - {p})
    case Some(next) => w.(open := w.open[p := Window(seen, next)])
  }

  /** One step of any caller. A board edit is one write; a caller has one call open at a time. */
  function Next(w: World, e: Event): World {
    match e
    case Begin(p, call) =>
      if p in w.open then w
      else if call.Edit? then w.(row := w.row.(tier := call.tier, status := call.status))
      else Opened(w, p, w.row, Decide(w.row, call))
    case Commit(p) =>
      if p !in w.open then w
      else
        var row := Written(w.row, w.open[p]);
        Opened(w.(row := row), p, row, Afterwards(row, w.open[p].doing))
  }

  predicate Follows(ws: seq<World>, events: seq<Event>, i: nat)
    requires |ws| == |events| + 1 && i < |events|
  {
    ws[i + 1] == Next(ws[i], events[i])
  }

  /** The worlds an interleaving goes through, one before each event and one at the end. */
  ghost predicate Trace(ws: seq<World>, events: seq<Event>) {
    |ws| == |events| + 1 && forall i {:trigger Follows(ws, events, i)} :: 0 <= i < |events| ==> Follows(ws, events, i)
  }

  /** The event that leads from one world to the next sends the stage: the request leaves within the call's window. */
  predicate Sends(w: World, after: World, e: Event, stage: Stage) {
    && (e.Begin? <==> e.p !in w.open)
    && e.p in after.open && after.open[e.p].doing.Record? && after.open[e.p].doing.stage == stage
  }

  // ----- a call nobody overlaps -----

  function Rank(doing: Do): nat {
    match doing
    case SettleRecords(_, _) => 5
    case Queue(_) => 4
    case Record(_, _, _) => 3
    case Block(_) => 3
    case ReadBack(_) => 2
    case MapColumn(_) => 1
  }

  /** The call of `p` run to its end with nobody in between. */
  function Drained(w: World, p: nat): World
    decreases if p in w.open then Rank(w.open[p].doing) else 0
  {
    if p !in w.open then w else Drained(Next(w, Commit(p)), p)
  }

  /** The stage the call of `p` sends before it ends. */
  function SentBy(w: World, p: nat): Option<Stage>
    decreases if p in w.open then Rank(w.open[p].doing) else 0
  {
    if p !in w.open then None
    else if w.open[p].doing.Record? then Some(w.open[p].doing.stage)
    else SentBy(Next(w, Commit(p)), p)
  }

  ghost predicate RunsTo(w: World, p: nat, row: Card, sent: Option<Stage>) {
    Drained(w, p) == World(row, map[]) && SentBy(w, p) == sent
  }

  lemma MapAlone(seen: Card, item: WorkItem, p: nat)
    ensures var w := Opened(World(seen, map[]), p, seen, MapFrom(seen, item));
      RunsTo(w, p, match CardStatusFor(item, Pending(seen)) case None => seen case Some(status) => seen.(status := status), None)
  {
  }

  lemma RecordAlone(seen: Card, stage: Stage, reply: Reply, event: Option<WorkItem>, p: nat)
    ensures var w := World(seen, map[p := Window(seen, Record(stage, reply, event))]);
      var sent := Send(seen, stage, reply);
      RunsTo(w, p, match event
                   case None => sent
                   case Some(item) => (match CardStatusFor(item, Pending(sent)) case None => sent case Some(status) => sent.(status := status)),
             Some(stage))
  {
    var w := World(seen, map[p := Window(seen, Record(stage, reply, event))]);
    var sent := Send(seen, stage, reply);
    assert Written(seen, w.open[p]) == sent;
    if event.Some? {
      var w' := World(sent, map[p := Window(sent, ReadBack(event.value))]);
      assert Next(w, Commit(p)) == w';
      MapAlone(sent, event.value, p);
      assert Drained(w', p) == Drained(Opened(World(sent, map[]), p, sent, MapFrom(sent, event.value)), p) by {
        assert Next(w', Commit(p)) == Opened(World(sent, map[]), p, sent, MapFrom(sent, event.value));
      }
    } else {
      assert Next(w, Commit(p)) == World(sent, map[]);
    }
  }

  lemma AdvanceAlone(seen: Card, item: WorkItem, env: Env, p: nat)
    ensures var w := Opened(World(seen, map[]), p, seen, AdvanceFrom(seen, item, env));
      var (advanced, outcome) := Advance(seen, env);
      RunsTo(w, p, match CardStatusFor(item, Pending(advanced)) case None => advanced case Some(status) => advanced.(status := status), outcome.sent)
  {
    var w := Opened(World(seen, map[]), p, seen, AdvanceFrom(seen, item, env));
    var (advanced, outcome) := Advance(seen, env);
    if AnyStage(seen, Dispatched) || (!AnyStage(seen, Failed) && NextQueued(seen).None?) {
      MapAlone(seen, item, p);
    } else if AnyStage(seen, Failed) {
      assert Next(w, Commit(p)) == Opened(World(advanced, map[]), p, advanced, MapFrom(advanced, item));
      MapAlone(advanced, item, p);
    } else {
      var s := NextQueued(seen).value;
      match Dispatch(seen, s, env, Some(item))
      case None =>
        assert Next(w, Commit(p)) == Opened(World(seen, map[]), p, seen, MapFrom(seen, item));
        MapAlone(seen, item, p);
      case Some(send) => RecordAlone(seen, s, env.reply, Some(item), p);
    }
  }

  /** A call whose window nobody else enters leaves the card, and sends the stage, that the whole call does in one piece. */
  lemma CallAlone(card: Card, call: Step, p: nat)
    ensures RunsTo(Next(World(card, map[]), Begin(p, call)), p, CardIntakeRuns.Next(card, call), CardIntakeRuns.Apply(card, call).1.sent)
  {
    var w := Next(World(card, map[]), Begin(p, call));
    match call
    case Promote(env) =>
      if Decide(card, call).Some? && Decide(card, call).value.Record? {
        RecordAlone(card, DefaultStage(card), env.reply, None, p);
      }
    case Named(stage, env) =>
      if Decide(card, call).Some? {
        RecordAlone(card, stage, env.reply, None, p);
      }
    case Start(env) =>
      if Decide(card, call).Some? {
        StartAlone(card, env, p);
      }
    case Event(item, env) =>
      if card.key == Some(item.key) {
        var settled := Settle(card, item);
        AdvanceAlone(settled, item, env, p);
        if settled != card {
          assert Written(card, w.open[p]) == settled;
          assert Next(w, Commit(p)) == Opened(World(settled, map[]), p, settled, AdvanceFrom(settled, item, env));
        }
      }
    case Edit(_, _) =>
  }

  lemma StartAlone(card: Card, env: Env, p: nat)
    requires card.tier.Some? && !AnyStage(card, Dispatched) && Todo(card) != []
    ensures RunsTo(World(card, map[p := Window(card, Queue(env))]), p, StartSequence(card, env).0, StartSequence(card, env).1.sent)
  {
    var w := World(card, map[p := Window(card, Queue(env))]);
    var queued := Requeued(card);
    CardIntakeRuns.RequeueKeeps(card);
    assert Todo(queued) == Todo(card);
    var doing := Dispatch(queued, Todo(card)[0], env, None);
    assert Next(w, Commit(p)) == Opened(World(queued, map[]), p, queued, doing);
    if doing.Some? {
      RecordAlone(queued, Todo(card)[0], env.reply, None, p);
    }
  }

  // ----- any interleaving -----

  predicate WritesRecords(doing: Do) {
    doing.Record? || doing.Queue? || doing.SettleRecords?
  }

  /** A write of records finds the records and the key as its call last saw them. */
  predicate Undisturbed(w: World, e: Event) {
    e.Commit? && e.p in w.open && WritesRecords(w.open[e.p].doing) ==>
      w.open[e.p].seen.runs == w.row.runs && w.open[e.p].seen.key == w.row.key
  }

  /** An intake call begins only when no other is open. Board edits come at any time. */
  predicate Alone(w: World, e: Event) {
    e.Begin? && !e.call.Edit? ==> w.open == map[]
  }

  predicate UndisturbedAt(ws: seq<World>, events: seq<Event>, i: nat)
    requires i < |events| && i < |ws|
  {
    Undisturbed(ws[i], events[i])
  }

  ghost predicate AllUndisturbed(ws: seq<World>, events: seq<Event>, n: nat)
    requires n <= |events| < |ws|
  {
    forall i {:trigger UndisturbedAt(ws, events, i)} :: 0 <= i < n ==> UndisturbedAt(ws, events, i)
  }

  predicate AloneAt(ws: seq<World>, events: seq<Event>, i: nat)
    requires i < |events| && i < |ws|
  {
    Alone(ws[i], events[i])
  }

  ghost predicate NoOverlap(ws: seq<World>, events: seq<Event>)
    requires |events| < |ws|
  {
    forall i {:trigger AloneAt(ws, events, i)} :: 0 <= i < |events| ==> AloneAt(ws, events, i)
  }

  /** A call's next write is one its guards let through on the card it saw. */
  ghost predicate Guarded(win: Window) {
    && win.seen.cardKey != ""
    && match win.doing
       case Record(stage, _, _) =>
         StageStatus(win.seen, stage) !in {Some(Dispatched), Some(Done)} && (stage == Test ==> StageStatus(win.seen, Code) == Some(Done))
       case Queue(_) => !AnyStage(win.seen, Dispatched)
       case _ => true
  }

  ghost predicate Kept(w: World) {
    && CardIntakeRuns.Inv(w.row) && w.row.cardKey != ""
    && forall p :: p in w.open ==> Guarded(w.open[p])
  }

  lemma DecideIsGuarded(seen: Card, call: Step)
    requires CardIntakeRuns.Inv(seen) && seen.cardKey != "" && Decide(seen, call).Some?
    ensures Guarded(Window(seen, Decide(seen, call).value))
  {
  }

  lemma AfterwardsIsGuarded(row: Card, doing: Do)
    requires row.cardKey != "" && Afterwards(row, doing).Some?
    ensures Guarded(Window(row, Afterwards(row, doing).value))
  {
  }

  /** How one write moves the row, when it finds what its call saw. */
  lemma WriteMoves(row: Card, win: Window, stage: Stage)
    requires CardIntakeRuns.Inv(row) && Guarded(win) && row.cardKey == win.seen.cardKey
    requires WritesRecords(win.doing) ==> win.seen.runs == row.runs && win.seen.key == row.key
    ensures var row' := Written(row, win);
      && CardIntakeRuns.Inv(row') && row'.cardKey == row.cardKey
      && (HasKey(row) ==> row'.key == row.key)
      && CardIntakeRuns.Moved(StageStatus(row, stage), StageStatus(row', stage), false)
  {
    var row' := Written(row, win);
    assert forall s: Stage :: win.seen.runs == row.runs ==> StageStatus(win.seen, s) == StageStatus(row, s);
    match win.doing
    case Record(target, reply, _) => RecordMoves(row, win, target, reply, stage);
    case Queue(_) =>
      CardIntakeRuns.RequeueKeeps(row);
      CardIntakeRuns.RequeueKeepsInv(row);
      assert Requeued(row).runs == Requeued(win.seen).runs == row'.runs by {
        assert forall s: Stage :: Requeued(row).runs[s] == Requeued(win.seen).runs[s];
      }
      SameRecords(Requeued(row), row');
      assert StageStatus(row, stage) != Some(Dispatched);
    case SettleRecords(item, _) =>
      CardIntakeRuns.SettleKeeps(row, item);
      CardIntakeRuns.SettleKeepsInv(row, item);
      assert Settle(row, item).runs == Settle(win.seen, item).runs;
      SameRecords(Settle(row, item), row');
    case _ => SameRecords(row, row');
  }

  lemma SameRecords(a: Card, b: Card)
    requires a.runs == b.runs && a.key == b.key
    ensures forall s: Stage :: StageStatus(a, s) == StageStatus(b, s)
    ensures CardIntakeRuns.Inv(a) <==> CardIntakeRuns.Inv(b)
  {
    assert forall s: Stage :: StageStatus(a, s) == StageStatus(b, s);
  }

  lemma RecordMoves(row: Card, win: Window, target: Stage, reply: Reply, stage: Stage)
    requires CardIntakeRuns.Inv(row) && Guarded(win) && row.cardKey == win.seen.cardKey
    requires win.doing.Record? && win.doing.stage == target && win.doing.reply == reply
    requires win.seen.runs == row.runs && win.seen.key == row.key
    ensures var row' := Written(row, win);
      && CardIntakeRuns.Inv(row') && (HasKey(row) ==> row'.key == row.key)
      && CardIntakeRuns.Moved(StageStatus(row, stage), StageStatus(row', stage), false)
  {
    var row' := Written(row, win);
    SameRecords(row, win.seen);
    CardIntakeRuns.SendKeepsInv(win.seen, target, reply);
    SameRecords(Send(win.seen, target, reply), row');
    assert stage != target ==> StageStatus(row', stage) == StageStatus(row, stage);
  }

  lemma EventKeeps(w: World, e: Event, cardKey: string)
    requires Kept(w) && SameCard(w, cardKey) && Undisturbed(w, e)
    ensures Kept(Next(w, e)) && SameCard(Next(w, e), cardKey)
    ensures HasKey(w.row) ==> Next(w, e).row.key == w.row.key
    ensures forall s: Stage :: CardIntakeRuns.Moved(StageStatus(w.row, s), StageStatus(Next(w, e).row, s), false)
  {
    match e
    case Begin(p, call) =>
      if p !in w.open {
        if call.Edit? {
          SameRecords(w.row, Next(w, e).row);
        } else if Decide(w.row, call).Some? {
          DecideIsGuarded(w.row, call);
        }
      }
    case Commit(p) =>
      if p in w.open {
        var row := Written(w.row, w.open[p]);
        forall s: Stage
          ensures CardIntakeRuns.Inv(row) && row.cardKey == w.row.cardKey && (HasKey(w.row) ==> row.key == w.row.key)
          ensures CardIntakeRuns.Moved(StageStatus(w.row, s), StageStatus(row, s), false)
        {
          WriteMoves(w.row, w.open[p], s);
        }
        if Afterwards(row, w.open[p].doing).Some? {
          AfterwardsIsGuarded(row, w.open[p].doing);
        }
      }
  }

  /** Every call is about the one card. */
  predicate SameCard(w: World, cardKey: string) {
    w.row.cardKey == cardKey && forall p :: p in w.open ==> w.open[p].seen.cardKey == cardKey
  }

  /** A card just made, with nothing recorded and no call open. */
  predicate Initial(w: World) {
    w.open == map[] && w.row.runs == map[] && w.row.cardKey != ""
  }

  lemma {:induction false} RunKeeps(ws: seq<World>, events: seq<Event>, n: nat)
    requires Trace(ws, events) && Initial(ws[0]) && n <= |events| && AllUndisturbed(ws, events, n)
    ensures Kept(ws[n]) && SameCard(ws[n], ws[0].row.cardKey)
  {
    if n > 0 {
      RunKeeps(ws, events, n - 1);
      assert Follows(ws, events, n - 1) && UndisturbedAt(ws, events, n - 1);
      EventKeeps(ws[n - 1], events[n - 1], ws[0].row.cardKey);
    }
  }

  /** Over any interleaving of calls, read by read and write by write, in which every write of records finds what its call saw: a stage in flight or complete has a key to join on, and a verification has a completed build. */
  lemma UndisturbedKeepsInv(ws: seq<World>, events: seq<Event>, n: nat)
    requires Trace(ws, events) && Initial(ws[0]) && n <= |events| && AllUndisturbed(ws, events, n)
    ensures CardIntakeRuns.Inv(ws[n].row)
  {
    RunKeeps(ws, events, n);
  }

  /** ... a stage once done stays done, and a key once written stays written. */
  lemma {:induction false} UndisturbedKeepsDoneAndKey(ws: seq<World>, events: seq<Event>, i: nat, j: nat, stage: Stage)
    requires Trace(ws, events) && Initial(ws[0]) && i <= j <= |events| && AllUndisturbed(ws, events, j)
    ensures StageStatus(ws[i].row, stage) == Some(Done) ==> StageStatus(ws[j].row, stage) == Some(Done)
    ensures HasKey(ws[i].row) ==> ws[j].row.key == ws[i].row.key
  {
    if i < j {
      UndisturbedKeepsDoneAndKey(ws, events, i, j - 1, stage);
      RunKeeps(ws, events, j - 1);
      assert Follows(ws, events, j - 1) && UndisturbedAt(ws, events, j - 1);
      EventKeeps(ws[j - 1], events[j - 1], ws[0].row.cardKey);
    }
  }

  // ----- windows that do not overlap -----

  /** At most one call is open, and since it last looked only the tier and the column can have changed. */
  predicate Single(w: World) {
    && (forall p, q :: p in w.open && q in w.open ==> p == q)
    && (forall p :: p in w.open ==> w.open[p].seen.runs == w.row.runs && w.open[p].seen.key == w.row.key)
  }

  lemma SingleStep(w: World, e: Event)
    requires Single(w) && Alone(w, e)
    ensures Single(Next(w, e)) && Undisturbed(w, e)
  {
  }

  lemma {:induction false} NoOverlapIsSingle(ws: seq<World>, events: seq<Event>, n: nat)
    requires Trace(ws, events) && Initial(ws[0]) && n <= |events| && NoOverlap(ws, events)
    ensures Single(ws[n]) && AllUndisturbed(ws, events, n)
  {
    if n > 0 {
      NoOverlapIsSingle(ws, events, n - 1);
      assert Follows(ws, events, n - 1) && AloneAt(ws, events, n - 1);
      SingleStep(ws[n - 1], events[n - 1]);
    }
  }

  /** The stage is on its way, in flight or complete. */
  predicate Engaged(w: World, stage: Stage) {
    || StageStatus(w.row, stage) in {Some(Dispatched), Some(Done)}
    || exists p :: p in w.open && w.open[p].doing.Record? && w.open[p].doing.stage == stage
  }

  lemma SendEngages(w: World, e: Event, stage: Stage)
    requires Kept(w) && Single(w) && Alone(w, e) && Sends(w, Next(w, e), e, stage)
    ensures !Engaged(w, stage) && Engaged(Next(w, e), stage)
  {
    var w' := Next(w, e);
    assert w'.open[e.p].doing.Record?;
    if e.Begin? {
      DecideIsGuarded(w.row, e.call);
    } else {
      assert !w.open[e.p].doing.Record?;
      SendAfterWrite(w.row, w.open[e.p], stage);
    }
  }

  /** A send that follows a write is of a stage the row before did not have in flight or complete. */
  lemma SendAfterWrite(row: Card, win: Window, stage: Stage)
    requires Guarded(win) && win.seen.runs == row.runs
    requires var next := Afterwards(Written(row, win), win.doing); next.Some? && next.value.Record? && next.value.stage == stage
    ensures StageStatus(row, stage) !in {Some(Dispatched), Some(Done)}
  {
    assert forall s: Stage :: StageStatus(win.seen, s) == StageStatus(row, s);
    match win.doing
    case Queue(_) =>
      CardIntakeRuns.RequeueKeeps(win.seen);
      assert StageStatus(Written(row, win), stage) == StageStatus(Requeued(win.seen), stage);
      assert StageStatus(row, stage) != Some(Dispatched);
    case SettleRecords(item, _) =>
      CardIntakeRuns.SettleKeeps(win.seen, item);
      assert StageStatus(Written(row, win), stage) == StageStatus(Settle(win.seen, item), stage);
      assert StageStatus(Written(row, win), stage) == Some(Queued);
    case _ =>
  }

  lemma EngagedUntilFailed(w: World, e: Event, stage: Stage, cardKey: string)
    requires Kept(w) && SameCard(w, cardKey) && Single(w) && Alone(w, e) && Engaged(w, stage)
    ensures Engaged(Next(w, e), stage) || StageStatus(Next(w, e).row, stage) == Some(Failed)
  {
    EventKeeps(w, e, cardKey);
    if StageStatus(w.row, stage) in {Some(Dispatched), Some(Done)} {
      assert CardIntakeRuns.Moved(StageStatus(w.row, stage), StageStatus(Next(w, e).row, stage), false);
    } else {
      var p :| p in w.open && w.open[p].doing.Record? && w.open[p].doing.stage == stage;
      if e == Commit(p) {
        RecordedAfterCommit(w, p);
      } else {
        StillWaiting(w, e, p);
      }
    }
  }

  lemma RecordedAfterCommit(w: World, p: nat)
    requires p in w.open && w.open[p].doing.Record?
    ensures StageStatus(Next(w, Commit(p)).row, w.open[p].doing.stage) in {Some(Dispatched), Some(Failed)}
  {
  }

  lemma StillWaiting(w: World, e: Event, p: nat)
    requires p in w.open && e != Commit(p)
    ensures p in Next(w, e).open && Next(w, e).open[p] == w.open[p]
  {
  }

  /** When no two calls overlap, these hold at every single read and write: the guards' invariant, done stays done, and the key is written once. */
  lemma NoOverlapKeepsRecords(ws: seq<World>, events: seq<Event>, i: nat, j: nat, stage: Stage)
    requires Trace(ws, events) && Initial(ws[0]) && i <= j <= |events| && NoOverlap(ws, events)
    ensures CardIntakeRuns.Inv(ws[j].row)
    ensures StageStatus(ws[i].row, stage) == Some(Done) ==> StageStatus(ws[j].row, stage) == Some(Done)
    ensures HasKey(ws[i].row) ==> ws[j].row.key == ws[i].row.key
  {
    NoOverlapIsSingle(ws, events, j);
    UndisturbedKeepsInv(ws, events, j);
    UndisturbedKeepsDoneAndKey(ws, events, i, j, stage);
  }

  lemma KeptAlone(ws: seq<World>, events: seq<Event>, n: nat)
    requires Trace(ws, events) && Initial(ws[0]) && n < |events| && NoOverlap(ws, events)
    ensures Kept(ws[n]) && SameCard(ws[n], ws[0].row.cardKey) && Single(ws[n]) && Alone(ws[n], events[n]) && ws[n + 1] == Next(ws[n], events[n])
  {
    NoOverlapIsSingle(ws, events, n);
    RunKeeps(ws, events, n);
    assert Follows(ws, events, n) && AloneAt(ws, events, n);
  }

  lemma SentAt(ws: seq<World>, events: seq<Event>, i: nat, stage: Stage)
    requires Trace(ws, events) && Initial(ws[0]) && i < |events| && NoOverlap(ws, events)
    requires Sends(ws[i], ws[i + 1], events[i], stage)
    ensures !Engaged(ws[i], stage) && Engaged(ws[i + 1], stage)
  {
    KeptAlone(ws, events, i);
    SendEngages(ws[i], events[i], stage);
  }

  /** ... and two sends of one stage are separated by that stage failing. */
  lemma NoOverlapSeparatesSends(ws: seq<World>, events: seq<Event>, i: nat, j: nat, stage: Stage) returns (k: nat)
    requires Trace(ws, events) && Initial(ws[0]) && i < j < |events| && NoOverlap(ws, events)
    requires Sends(ws[i], ws[i + 1], events[i], stage) && Sends(ws[j], ws[j + 1], events[j], stage)
    ensures i < k <= j && StageStatus(ws[k].row, stage) == Some(Failed)
  {
    SentAt(ws, events, i, stage);
    SentAt(ws, events, j, stage);
    k := FirstFailure(ws, events, i + 1, j, stage);
  }

  lemma {:induction false} FirstFailure(ws: seq<World>, events: seq<Event>, i: nat, j: nat, stage: Stage) returns (k: nat)
    requires Trace(ws, events) && Initial(ws[0]) && i <= j < |events| && NoOverlap(ws, events)
    requires Engaged(ws[i], stage) && !Engaged(ws[j], stage)
    ensures i < k <= j && StageStatus(ws[k].row, stage) == Some(Failed)
    decreases j - i
  {
    KeptAlone(ws, events, i);
    EngagedUntilFailed(ws[i], events[i], stage, ws[0].row.cardKey);
    if StageStatus(ws[i + 1].row, stage) == Some(Failed) {
      k := i + 1;
    } else {
      k := FirstFailure(ws, events, i + 1, j, stage);
    }
  }

  // ----- windows that do -----

  function Press(p: nat, stage: Stage, ref: string): Event {
    Begin(p, CardIntakeRuns.Named(stage, Env(true, Accepted(Some(ref)))))
  }

  /** Press twice before the first answer is recorded and the stage goes out twice, with no failure between, whichever stage it is; on a card without a key, the second answer re-points it. */
  lemma DoublePressSendsTwice(card: Card, stage: Stage, first: string, second: string) returns (ws: seq<World>)
    requires CardIntakeRuns.Sends(card, CardIntakeRuns.Named(stage, Env(true, Rejected)), stage)
    requires StageStatus(card, stage) != Some(Failed) && first != "" && second != ""
    ensures var events := [Press(1, stage, first), Press(2, stage, second), Commit(1), Commit(2)];
      && Trace(ws, events) && ws[0] == World(card, map[])
      && Sends(ws[0], ws[1], events[0], stage) && Sends(ws[1], ws[2], events[1], stage)
      && (forall k :: 0 <= k <= 4 ==> StageStatus(ws[k].row, stage) != Some(Failed))
      && (!HasKey(card) ==> ws[3].row.key == Some(first) && ws[4].row.key == Some(second))
  {
    var events := [Press(1, stage, first), Press(2, stage, second), Commit(1), Commit(2)];
    var one, two := Window(card, Record(stage, Accepted(Some(first)), None)), Window(card, Record(stage, Accepted(Some(second)), None));
    var w0, w1, w2 := World(card, map[]), World(card, map[1 := one]), World(card, map[1 := one, 2 := two]);
    var w3, w4 := World(Send(card, stage, one.doing.reply), map[2 := two]), World(Send(card, stage, two.doing.reply), map[]);
    ws := [w0, w1, w2, w3, w4];
    PressOpens(w0, 1, stage, first);
    PressOpens(w1, 2, stage, second);
    assert Follows(ws, events, 0) && Follows(ws, events, 1);
    assert Next(w2, Commit(1)) == w3 && Follows(ws, events, 2);
    assert Next(w3, Commit(2)) == w4 && Follows(ws, events, 3);
  }

  lemma PressOpens(w: World, p: nat, stage: Stage, ref: string)
    requires CardIntakeRuns.Sends(w.row, CardIntakeRuns.Named(stage, Env(true, Rejected)), stage) && p !in w.open
    ensures Next(w, Press(p, stage, ref)) == World(w.row, w.open[p := Window(w.row, Record(stage, Accepted(Some(ref)), None))])
  {
  }

  /** A send that was waiting while an event settled another stage writes that stage back as it saw it: done does not stay done. */
  lemma StaleSendUndoesDone(card: Card, env: Env, item: WorkItem) returns (ws: seq<World>)
    requires card.tier.Some? && card.key == Some(item.key) && card.key.value != "" && env.project && item.plan == Complete
    requires StageStatus(card, Plan) == Some(Dispatched) && StageStatus(card, Code).None? && StageStatus(card, Test).None?
    ensures var events := [Begin(1, CardIntakeRuns.Named(Code, env)), Begin(2, CardIntakeRuns.Event(item, env)), Commit(2), Commit(1)];
      && Trace(ws, events) && ws[0] == World(card, map[])
      && StageStatus(ws[3].row, Plan) == Some(Done) && StageStatus(ws[4].row, Plan) == Some(Dispatched)
  {
    var events := [Begin(1, CardIntakeRuns.Named(Code, env)), Begin(2, CardIntakeRuns.Event(item, env)), Commit(2), Commit(1)];
    var settled := Settle(card, item);
    CardIntakeRuns.SettleKeeps(card, item);
    assert settled != card;
    var send, settle := Window(card, Record(Code, env.reply, None)), Window(card, SettleRecords(item, env));
    var w0, w1, w2 := World(card, map[]), World(card, map[1 := send]), World(card, map[1 := send, 2 := settle]);
    var w3 := Next(w2, Commit(2));
    var w4 := Next(w3, Commit(1));
    ws := [w0, w1, w2, w3, w4];
    assert Follows(ws, events, 0);
    assert Next(w1, events[1]) == w2 && Follows(ws, events, 1);
    assert Follows(ws, events, 2) && w3.row == settled && 1 in w3.open && w3.open[1] == send;
    assert Follows(ws, events, 3) && w4.row.runs == Send(card, Code, env.reply).runs;
  }
}
