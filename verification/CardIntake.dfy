/**
 How a card enters the factory: the per-stage dispatch records, the explicit and implicit
 ways to send a stage, and the write-back that settles and advances a sequence.
 Each operation is given as a function on the stored card; `CardStore` performs it in place.
 */
module CardIntake {
  import opened Prelude

  datatype Stage = Plan | Code | Test

  datatype RunStatus = Queued | Dispatched | Done | Failed

  datatype Column = Backlog | Ready | InProgress | Blocked | Finished

  datatype Tier = Low | Medium | Hard

  datatype Card = Card(cardKey: string, tier: Option<Tier>, status: Column, key: Option<string>, runs: map<Stage, RunStatus>)

  const SEQUENCE: seq<Stage> := [Plan, Code, Test]

  /** What the intake door answered, with the upstream's own id when it sent one. */
  datatype Reply = Accepted(ref: Option<string>) | Rejected

  /** The surroundings of one call: is an AIFactory project configured, and what would the door answer. */
  datatype Env = Env(project: bool, reply: Reply)

  datatype Refusal = NoTier | StageAlreadyRunning | NoBuildToVerify | NoIntakeProject

  /** What a call reports: whether it is fine, why it was refused, and which door it knocked on. */
  datatype Outcome = Outcome(ok: bool, refused: Option<Refusal>, sent: Option<Stage>)

  const NOTHING_TO_DO := Outcome(true, None, None)

  /** A work-item slice as `is_failure_or_stuck` (asked first) and `is_done` class its status. */
  datatype Slice = NoStatus | Running | Complete | Stuck

  datatype WorkItem = WorkItem(key: string, plan: Slice, code: Slice, test: Slice)

  // ----- reading a card -----

  function StageStatus(card: Card, stage: Stage): Option<RunStatus> {
    if stage in card.runs then Some(card.runs[stage]) else None
  }

  predicate HasKey(card: Card) {
    card.key.Some? && card.key.value != ""
  }

  predicate AnyStage(card: Card, status: RunStatus) {
    exists s: Stage :: StageStatus(card, s) == Some(status)
  }

  predicate Pending(card: Card) {
    AnyStage(card, Queued) || AnyStage(card, Dispatched)
  }

  function DefaultStage(card: Card): Stage {
    if card.tier == Some(Hard) then Plan else Code
  }

  function RefuseReason(card: Card, stage: Stage, project: bool): Option<Refusal> {
    if card.tier.None? then Some(NoTier)
    else if StageStatus(card, stage) == Some(Dispatched) then Some(StageAlreadyRunning)
    else if stage == Test && (!HasKey(card) || StageStatus(card, Code) != Some(Done)) then Some(NoBuildToVerify)
    else if stage != Plan && !project then Some(NoIntakeProject)
    else None
  }

  function SliceOf(item: WorkItem, stage: Stage): Slice {
    match stage case Plan => item.plan case Code => item.code case Test => item.test
  }

  /** The slice furthest along the pipeline that has any status. */
  function Furthest(item: WorkItem): Slice {
    if item.test != NoStatus then item.test
    else if item.code != NoStatus then item.code
    else item.plan
  }

  function CardStatusFor(item: WorkItem, remaining: bool): Option<Column> {
    match Furthest(item)
    case NoStatus => None
    case Stuck => Some(Blocked)
    case Running => Some(InProgress)
    case Complete =>
      var planOnly := item.test == NoStatus && item.code == NoStatus;
      Some(if remaining || planOnly then InProgress else Finished)
  }

  // ----- the operations -----

  /** `_send`: the one place a dispatch record is written. */
  function Send(card: Card, stage: Stage, reply: Reply): Card {
    match reply
    case Rejected => card.(runs := card.runs[stage := Failed], status := Blocked)
    case Accepted(ref) =>
      var key := if HasKey(card) then card.key.value
                 else if ref.Some? && ref.value != "" then ref.value else card.cardKey;
      card.(runs := card.runs[stage := Dispatched], key := Some(key), status := InProgress)
  }

  function SendOutcome(stage: Stage, reply: Reply): Outcome {
    Outcome(reply.Accepted?, None, Some(stage))
  }

  function DispatchCard(card: Card, env: Env): (Card, Outcome) {
    var stage := DefaultStage(card);
    if StageStatus(card, stage) in {Some(Dispatched), Some(Done)} then (card, NOTHING_TO_DO)
    else if stage != Plan && !env.project then (card.(status := Blocked), Outcome(false, None, None))
    else (Send(card, stage, env.reply), SendOutcome(stage, env.reply))
  }

  function MaybeDispatch(card: Card, env: Env): (Card, Outcome) {
    if card.status != Ready || card.tier.None? then (card, NOTHING_TO_DO) else DispatchCard(card, env)
  }

  function DispatchStage(card: Card, stage: Stage, env: Env): (Card, Outcome) {
    if StageStatus(card, stage) == Some(Done) then (card, NOTHING_TO_DO)
    else
      match RefuseReason(card, stage, env.project)
      case Some(why) => (card, Outcome(false, Some(why), None))
      case None => (Send(card, stage, env.reply), SendOutcome(stage, env.reply))
  }

  /** The stages of the sequence not yet recorded complete. */
  function Todo(card: Card): seq<Stage> {
    (if StageStatus(card, Plan) != Some(Done) then [Plan] else []) +
    (if StageStatus(card, Code) != Some(Done) then [Code] else []) +
    (if StageStatus(card, Test) != Some(Done) then [Test] else [])
  }

  function Requeued(card: Card): Card {
    card.(runs := map s: Stage :: if StageStatus(card, s) == Some(Done) then Done else Queued)
  }

  function StartSequence(card: Card, env: Env): (Card, Outcome) {
    if card.tier.None? then (card, Outcome(false, Some(NoTier), None))
    else if AnyStage(card, Dispatched) then (card, Outcome(false, Some(StageAlreadyRunning), None))
    else if Todo(card) == [] then (card, NOTHING_TO_DO)
    else DispatchStage(Requeued(card), Todo(card)[0], env)
  }

  function SettledRun(status: RunStatus, slice: Slice): RunStatus {
    if status != Dispatched then status
    else match slice case Stuck => Failed case Complete => Done case _ => Dispatched
  }

  function Settle(card: Card, item: WorkItem): Card {
    card.(runs := map s | s in card.runs :: SettledRun(card.runs[s], SliceOf(item, s)))
  }

  /** The first queued stage in pipeline order. */
  function NextQueued(card: Card): Option<Stage> {
    if StageStatus(card, Plan) == Some(Queued) then Some(Plan)
    else if StageStatus(card, Code) == Some(Queued) then Some(Code)
    else if StageStatus(card, Test) == Some(Queued) then Some(Test)
    else None
  }

  function Advance(card: Card, env: Env): (Card, Outcome) {
    if AnyStage(card, Dispatched) then (card, NOTHING_TO_DO)
    else if AnyStage(card, Failed) then (card.(status := Blocked), NOTHING_TO_DO)
    else
      match NextQueued(card)
      case None => (card, NOTHING_TO_DO)
      case Some(s) => DispatchStage(card, s, env)
  }

  function ApplyStatus(card: Card, item: WorkItem, env: Env): (Card, Outcome) {
    if card.key != Some(item.key) then (card, NOTHING_TO_DO)
    else
      var (advanced, outcome) := Advance(Settle(card, item), env);
      match CardStatusFor(item, Pending(advanced))
      case None => (advanced, outcome)
      case Some(status) => (advanced.(status := status), outcome)
  }

  // ----- the stored card -----

  /** One card's row, updated in place. */
  class CardStore {
    const cardKey: string
    var tier: Option<Tier>
    var status: Column
    var key: Option<string>
    var runs: map<Stage, RunStatus>

    function Stored(): Card
      reads this
    {
      Card(cardKey, tier, status, key, runs)
    }

    constructor (cardKey: string, tier: Option<Tier>, status: Column)
      ensures Stored() == Card(cardKey, tier, status, None, map[])
    {
      this.cardKey, this.tier, this.status, key, runs := cardKey, tier, status, None, map[];
    }

    method SendStage(stage: Stage, reply: Reply) returns (outcome: Outcome)
      modifies this
      ensures Stored() == Send(old(Stored()), stage, reply) && outcome == SendOutcome(stage, reply)
    {
      if reply.Rejected? {
        runs := runs[stage := Failed];
        status := Blocked;
        return Outcome(false, None, Some(stage));
      }
      var threaded := cardKey;
      if key.Some? && key.value != "" {
        threaded := key.value;
      } else if reply.ref.Some? && reply.ref.value != "" {
        threaded := reply.ref.value;
      }
      runs := runs[stage := Dispatched];
      key := Some(threaded);
      status := InProgress;
      outcome := Outcome(true, None, Some(stage));
    }

    method DispatchReady(env: Env) returns (outcome: Outcome)
      modifies this
      ensures (Stored(), outcome) == MaybeDispatch(old(Stored()), env)
    {
      outcome := NOTHING_TO_DO;
      if status == Ready && tier.Some? {
        var stage := DefaultStage(Stored());
        var recorded := StageStatus(Stored(), stage);
        if recorded == Some(Dispatched) || recorded == Some(Done) {
          return;
        }
        if stage != Plan && !env.project {
          status := Blocked;
          return Outcome(false, None, None);
        }
        outcome := SendStage(stage, env.reply);
      }
    }

    method SendNamed(stage: Stage, env: Env) returns (outcome: Outcome)
      modifies this
      ensures (Stored(), outcome) == DispatchStage(old(Stored()), stage, env)
    {
      if StageStatus(Stored(), stage) == Some(Done) {
        return NOTHING_TO_DO;
      }
      var refusal := RefuseReason(Stored(), stage, env.project);
      if refusal.Some? {
        return Outcome(false, refusal, None);
      }
      outcome := SendStage(stage, env.reply);
    }

    method Start(env: Env) returns (outcome: Outcome)
      modifies this
      ensures (Stored(), outcome) == StartSequence(old(Stored()), env)
    {
      if tier.None? {
        return Outcome(false, Some(NoTier), None);
      }
      var todo: seq<Stage>, queued := [], runs;
      for i := 0 to 3
        invariant todo == (if i > 0 && StageStatus(Stored(), Plan) != Some(Done) then [Plan] else [])
          + (if i > 1 && StageStatus(Stored(), Code) != Some(Done) then [Code] else [])
          + (if i > 2 && StageStatus(Stored(), Test) != Some(Done) then [Test] else [])
        invariant forall s :: s in todo ==> s in queued && queued[s] == Queued
        invariant forall s :: s !in todo ==> (s in queued <==> s in runs) && (s in runs ==> queued[s] == runs[s])
        invariant forall j :: 0 <= j < i ==> StageStatus(Stored(), SEQUENCE[j]) != Some(Dispatched)
      {
        var stage := SEQUENCE[i];
        if StageStatus(Stored(), stage) == Some(Dispatched) {
          return Outcome(false, Some(StageAlreadyRunning), None);
        }
        if StageStatus(Stored(), stage) != Some(Done) {
          todo, queued := todo + [stage], queued[stage := Queued];
        }
      }
      NoneDispatched(Stored());
      assert todo == Todo(Stored());
      if todo == [] {
        return NOTHING_TO_DO;
      }
      forall s: Stage
        ensures s in queued && queued[s] == Requeued(Stored()).runs[s]
      {
        assert s == Plan || s == Code || s == Test;
      }
      assert queued == Requeued(Stored()).runs;
      runs := queued;
      outcome := SendNamed(todo[0], env);
    }

    method SettleRuns(item: WorkItem)
      modifies this`runs
      ensures Stored() == Settle(old(Stored()), item)
    {
      var before := runs;
      for i := 0 to 3
        invariant runs.Keys == before.Keys
        invariant forall j :: 0 <= j < i && SEQUENCE[j] in before ==> runs[SEQUENCE[j]] == SettledRun(before[SEQUENCE[j]], SliceOf(item, SEQUENCE[j]))
        invariant forall j :: i <= j < 3 && SEQUENCE[j] in before ==> runs[SEQUENCE[j]] == before[SEQUENCE[j]]
      {
        var stage := SEQUENCE[i];
        if StageStatus(Stored(), stage) == Some(Dispatched) {
          var slice := SliceOf(item, stage);
          if slice == Stuck {
            runs := runs[stage := Failed];
          } else if slice == Complete {
            runs := runs[stage := Done];
          }
        }
      }
      forall s | s in before
        ensures runs[s] == SettledRun(before[s], SliceOf(item, s))
      {
        assert s == SEQUENCE[0] || s == SEQUENCE[1] || s == SEQUENCE[2];
      }
    }

    method AdvanceSequence(env: Env) returns (outcome: Outcome)
      modifies this
      ensures (Stored(), outcome) == Advance(old(Stored()), env)
    {
      outcome := NOTHING_TO_DO;
      if AnyStage(Stored(), Dispatched) {
        return;
      }
      if AnyStage(Stored(), Failed) {
        status := Blocked;
        return;
      }
      var next := NextQueued(Stored());
      if next.Some? {
        outcome := SendNamed(next.value, env);
      }
    }

    /** The completion-event write-back: settle what is in flight, advance the sequence, map the status. */
    method Apply(item: WorkItem, env: Env) returns (outcome: Outcome)
      modifies this
      ensures (Stored(), outcome) == ApplyStatus(old(Stored()), item, env)
    {
      if key != Some(item.key) {
        return NOTHING_TO_DO;
      }
      SettleRuns(item);
      outcome := AdvanceSequence(env);
      var mapped := CardStatusFor(item, Pending(Stored()));
      if mapped.Some? && mapped.value != status {
        status := mapped.value;
      }
    }
  }

  lemma NoneDispatched(card: Card)
    requires forall j :: 0 <= j < 3 ==> StageStatus(card, SEQUENCE[j]) != Some(Dispatched)
    ensures !AnyStage(card, Dispatched)
  {
    forall s: Stage
      ensures StageStatus(card, s) != Some(Dispatched)
    {
      assert s == SEQUENCE[0] || s == SEQUENCE[1] || s == SEQUENCE[2];
    }
  }
}
