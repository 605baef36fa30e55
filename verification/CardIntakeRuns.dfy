/** What holds of a card over every run of the intake operations. */
module CardIntakeRuns {
  import opened Prelude
  import opened CardIntake

  /** One call on the card. `Edit` is a board edit of the tier and the column. */
  datatype Step =
    | Promote(env: Env)
    | Named(stage: Stage, env: Env)
    | Start(env: Env)
    | Event(item: WorkItem, env: Env)
    | Edit(tier: Option<Tier>, status: Column)

  function Apply(card: Card, step: Step): (Card, Outcome) {
    match step
    case Promote(env) => MaybeDispatch(card, env)
    case Named(stage, env) => DispatchStage(card, stage, env)
    case Start(env) => StartSequence(card, env)
    case Event(item, env) => ApplyStatus(card, item, env)
    case Edit(tier, status) => (card.(tier := tier, status := status), NOTHING_TO_DO)
  }

  function Next(card: Card, step: Step): Card {
    Apply(card, step).0
  }

  predicate Sends(card: Card, step: Step, stage: Stage) {
    Apply(card, step).1.sent == Some(stage)
  }

  /** The card after the first `n` steps. */
  function At(card: Card, steps: seq<Step>, n: nat): Card
    requires n <= |steps|
  {
    if n == 0 then card else Next(At(card, steps, n - 1), steps[n - 1])
  }

  // ----- single calls -----

  /** A named or implicit dispatch that reaches its door leaves the card in progress with the stage recorded and a key to join on, or blocked with the stage failed; no other record moves. */
  lemma DirectDispatchSettlesColumn(card: Card, step: Step, stage: Stage)
    requires (step.Promote? || step.Named?) && Sends(card, step, stage) && card.cardKey != ""
    ensures var card' := Next(card, step);
      && (step.env.reply.Accepted? ==> card'.status == InProgress && StageStatus(card', stage) == Some(Dispatched) && HasKey(card'))
      && (step.env.reply.Rejected? ==> card'.status == Blocked && StageStatus(card', stage) == Some(Failed) && card'.key == card.key)
      && (forall s: Stage :: s != stage ==> StageStatus(card', s) == StageStatus(card, s))
      && (Apply(card, step).1.ok <==> step.env.reply.Accepted?)
  {
  }

  /** A refused single-stage action leaves the card exactly as it was. */
  lemma RefusedStageChangesNothing(card: Card, stage: Stage, env: Env)
    requires DispatchStage(card, stage, env).1.refused.Some?
    ensures DispatchStage(card, stage, env).0 == card
  {
  }

  /** `run` can refuse after it has queued the outstanding stages. A refusal leaves the card as it was exactly when it came before the queueing, or every outstanding stage was queued already. */
  lemma RefusedStartUnchangedIff(card: Card, env: Env)
    requires StartSequence(card, env).1.refused.Some?
    ensures StartSequence(card, env).0 == card <==>
      card.tier.None? || AnyStage(card, Dispatched)
      || forall s: Stage :: StageStatus(card, s) in {Some(Done), Some(Queued)}
  {
    var card' := StartSequence(card, env).0;
    if card.tier.Some? && !AnyStage(card, Dispatched) {
      assert card' == Requeued(card);
      forall s: Stage
        ensures StageStatus(card', s) == if StageStatus(card, s) == Some(Done) then Some(Done) else Some(Queued)
      {
      }
      if forall s: Stage :: StageStatus(card, s) in {Some(Done), Some(Queued)} {
        forall s: Stage
          ensures s in card.runs && card.runs[s] == card'.runs[s]
        {
          assert StageStatus(card, s) in {Some(Done), Some(Queued)};
        }
        assert card.runs == card'.runs;
      }
    }
  }

  /** Planned, nothing else recorded, no AIFactory project: `run` answers with a refusal and has queued two stages. */
  lemma StartRefusesAfterQueueing(key: string)
    ensures var card := Card(key, Some(Low), Backlog, Some(key), map[Plan := Done]);
      var (card', outcome) := StartSequence(card, Env(false, Rejected));
      outcome.refused == Some(NoIntakeProject) && StageStatus(card', Code) == Some(Queued) && StageStatus(card', Test) == Some(Queued)
  {
    var card := Card(key, Some(Low), Backlog, Some(key), map[Plan := Done]);
    assert Todo(card) == [Code, Test];
  }

  /** An explicit request reaches its door exactly when the card has a tier, the stage is neither in flight nor complete, a verification has a completed build and its key, and a build or a verification has a project to run in. */
  lemma NamedSendsIff(card: Card, stage: Stage, env: Env)
    ensures Sends(card, Named(stage, env), stage) <==>
      && card.tier.Some?
      && StageStatus(card, stage) !in {Some(Dispatched), Some(Done)}
      && (stage == Test ==> HasKey(card) && StageStatus(card, Code) == Some(Done))
      && (stage == Plan || env.project)
  {
  }

  /** Whichever call sends a stage: the card has a tier, the stage was neither in flight nor complete, a build or a verification has its project, a verification follows a completed build with a key, and at most one stage is sent. */
  lemma EverySendIsSound(card: Card, step: Step, stage: Stage)
    requires Sends(card, step, stage)
    ensures var card' := Next(card, step);
      && card.tier.Some? && !step.Edit?
      && StageStatus(card, stage) !in {Some(Dispatched), Some(Done)}
      && (stage == Plan || step.env.project)
      && (stage == Test ==> HasKey(card') && StageStatus(card', Code) == Some(Done))
      && (step.Promote? ==> card.status == Ready && (stage == Plan <==> card.tier == Some(Hard)))
      && (step.Named? ==> stage == step.stage)
      && (step.Event? ==> StageStatus(card, stage) == Some(Queued))
  {
    if step.Event? {
      var settled := Settle(card, step.item);
      SettleKeeps(card, step.item);
      assert NextQueued(settled) == Some(stage);
    }
    if step.Start? {
      assert StageStatus(Requeued(card), stage) != Some(Done);
    }
  }

  /** The column after an event is that of the furthest stage the work item knows: blocked when it is stuck; done when it is complete, is more than the plan, and nothing is queued or in flight; in progress otherwise. */
  lemma ColumnFollowsFurthest(card: Card, item: WorkItem, env: Env, k: nat)
    requires card.key == Some(item.key) && k < 3 && SliceOf(item, SEQUENCE[k]) != NoStatus
    requires forall j :: k < j < 3 ==> SliceOf(item, SEQUENCE[j]) == NoStatus
    ensures var card' := Next(card, Event(item, env));
      && (card'.status == Blocked <==> SliceOf(item, SEQUENCE[k]) == Stuck)
      && (card'.status == Finished <==> SliceOf(item, SEQUENCE[k]) == Complete && k > 0 && forall s: Stage :: StageStatus(card', s) !in {Some(Queued), Some(Dispatched)})
      && card'.status in {Blocked, Finished, InProgress}
  {
    assert forall j :: 0 <= j < 3 ==> SEQUENCE[j] == (if j == 0 then Plan else if j == 1 then Code else Test);
    var advanced := Advance(Settle(card, item), env).0;
    var card' := Next(card, Event(item, env));
    assert item.code == SliceOf(item, SEQUENCE[1]) && item.test == SliceOf(item, SEQUENCE[2]);
    assert SliceOf(item, SEQUENCE[k]) == Furthest(item);
    assert k == 0 <==> item.test == NoStatus && item.code == NoStatus;
    assert card'.runs == advanced.runs;
    forall s: Stage
      ensures StageStatus(card', s) == StageStatus(advanced, s)
    {
    }
    assert Pending(card') == Pending(advanced);
  }

  // ----- every interleaving of every operation -----

  ghost predicate Inv(card: Card) {
    && (forall s: Stage :: StageStatus(card, s) in {Some(Dispatched), Some(Done)} ==> HasKey(card))
    && (StageStatus(card, Test) in {Some(Dispatched), Some(Done), Some(Failed)} ==> StageStatus(card, Code) == Some(Done))
  }

  /** How one stage's record may move in one call, given whether the call knocked on its door. */
  predicate Moved(before: Option<RunStatus>, after: Option<RunStatus>, sent: bool) {
    && (before == Some(Done) ==> after == Some(Done))
    && (before == Some(Dispatched) ==> after in {Some(Dispatched), Some(Done), Some(Failed)})
    && (sent ==> before !in {Some(Dispatched), Some(Done)} && after in {Some(Dispatched), Some(Failed)})
  }

  function SettledStatus(r: Option<RunStatus>, slice: Slice): Option<RunStatus> {
    match r case None => None case Some(status) => Some(SettledRun(status, slice))
  }

  lemma SettleKeeps(card: Card, item: WorkItem)
    ensures forall s: Stage :: StageStatus(Settle(card, item), s) == SettledStatus(StageStatus(card, s), SliceOf(item, s))
  {
  }

  lemma RequeueKeeps(card: Card)
    ensures forall s: Stage :: StageStatus(Requeued(card), s) == if StageStatus(card, s) == Some(Done) then Some(Done) else Some(Queued)
    ensures Todo(card) != [] ==> StageStatus(card, Todo(card)[0]) != Some(Done)
  {
  }

  lemma SendKeepsInv(card: Card, stage: Stage, reply: Reply)
    requires Inv(card) && card.cardKey != "" && StageStatus(card, stage) != Some(Done)
    requires stage == Test ==> StageStatus(card, Code) == Some(Done)
    ensures Inv(Send(card, stage, reply)) && (HasKey(card) ==> Send(card, stage, reply).key == card.key)
  {
    var card' := Send(card, stage, reply);
    forall s: Stage | s != stage
      ensures StageStatus(card', s) == StageStatus(card, s)
    {
    }
    assert reply.Accepted? ==> HasKey(card');
  }

  lemma SettleKeepsInv(card: Card, item: WorkItem)
    requires Inv(card)
    ensures Inv(Settle(card, item))
  {
    SettleKeeps(card, item);
    var card' := Settle(card, item);
    forall s: Stage | StageStatus(card', s) in {Some(Dispatched), Some(Done)}
      ensures HasKey(card')
    {
      assert StageStatus(card, s) in {Some(Dispatched), Some(Done)};
    }
  }

  lemma NamedKeepsInv(card: Card, stage: Stage, env: Env)
    requires Inv(card) && card.cardKey != ""
    ensures Inv(DispatchStage(card, stage, env).0)
    ensures HasKey(card) ==> DispatchStage(card, stage, env).0.key == card.key
  {
    if DispatchStage(card, stage, env).1.sent.Some? {
      SendKeepsInv(card, stage, env.reply);
    }
  }

  lemma StepMoves(card: Card, step: Step, stage: Stage)
    ensures Moved(StageStatus(card, stage), StageStatus(Next(card, step), stage), Sends(card, step, stage))
  {
    match step
    case Start(env) =>
      RequeueKeeps(card);
      if card.tier.Some? && !AnyStage(card, Dispatched) && Todo(card) != [] {
        assert StageStatus(card, stage) != Some(Dispatched);
        NamedMoves(Requeued(card), Todo(card)[0], env, stage);
      }
    case Event(item, env) =>
      SettleKeeps(card, item);
      EventMoves(card, item, env, stage);
    case Named(s, env) => NamedMoves(card, s, env, stage);
    case _ =>
  }

  lemma NamedMoves(card: Card, target: Stage, env: Env, stage: Stage)
    ensures var (card', outcome) := DispatchStage(card, target, env);
      Moved(StageStatus(card, stage), StageStatus(card', stage), outcome.sent == Some(stage))
  {
  }

  lemma AdvanceMoves(card: Card, env: Env, stage: Stage)
    ensures var (card', outcome) := Advance(card, env);
      Moved(StageStatus(card, stage), StageStatus(card', stage), outcome.sent == Some(stage))
  {
    if NextQueued(card).Some? {
      NamedMoves(card, NextQueued(card).value, env, stage);
    }
  }

  lemma EventMoves(card: Card, item: WorkItem, env: Env, stage: Stage)
    ensures var (card', outcome) := ApplyStatus(card, item, env);
      Moved(StageStatus(card, stage), StageStatus(card', stage), outcome.sent == Some(stage))
  {
    if card.key == Some(item.key) {
      SettleKeeps(card, item);
      AdvanceMoves(Settle(card, item), env, stage);
      EventRecords(card, item, env);
    }
  }

  /** Mapping the column touches no record. */
  lemma EventRecords(card: Card, item: WorkItem, env: Env)
    requires card.key == Some(item.key)
    ensures ApplyStatus(card, item, env).0.runs == Advance(Settle(card, item), env).0.runs
    ensures ApplyStatus(card, item, env).1 == Advance(Settle(card, item), env).1
  {
  }

  lemma StepKeepsInv(card: Card, step: Step)
    requires Inv(card) && card.cardKey != ""
    ensures Inv(Next(card, step))
    ensures HasKey(card) ==> Next(card, step).key == card.key
    ensures Next(card, step).cardKey == card.cardKey
  {
    match step
    case Start(env) =>
      RequeueKeeps(card);
      if card.tier.Some? && !AnyStage(card, Dispatched) && Todo(card) != [] {
        RequeueKeepsInv(card);
        NamedKeepsInv(Requeued(card), Todo(card)[0], env);
      }
    case Event(item, env) => EventKeepsInv(card, item, env);
    case Named(stage, env) => NamedKeepsInv(card, stage, env);
    case Promote(env) =>
      if MaybeDispatch(card, env).1.sent.Some? {
        SendKeepsInv(card, DefaultStage(card), env.reply);
      }
      StatusIsNotARecord(card, Blocked, card.tier);
    case Edit(tier, status) => StatusIsNotARecord(card, status, tier);
  }

  lemma StatusIsNotARecord(card: Card, status: Column, tier: Option<Tier>)
    requires Inv(card)
    ensures Inv(card.(status := status, tier := tier)) && Inv(card.(status := status))
  {
    var a, b := card.(status := status, tier := tier), card.(status := status);
    assert forall s: Stage :: StageStatus(a, s) == StageStatus(b, s) == StageStatus(card, s);
  }

  lemma RequeueKeepsInv(card: Card)
    requires Inv(card)
    ensures Inv(Requeued(card))
  {
    RequeueKeeps(card);
    forall s: Stage | StageStatus(Requeued(card), s) in {Some(Dispatched), Some(Done)}
      ensures HasKey(Requeued(card))
    {
      assert StageStatus(card, s) == Some(Done);
    }
  }

  lemma EventKeepsInv(card: Card, item: WorkItem, env: Env)
    requires Inv(card) && card.cardKey != ""
    ensures Inv(ApplyStatus(card, item, env).0)
    ensures HasKey(card) ==> ApplyStatus(card, item, env).0.key == card.key
    ensures ApplyStatus(card, item, env).0.cardKey == card.cardKey
  {
    var settled := Settle(card, item);
    SettleKeepsInv(card, item);
    if NextQueued(settled).Some? {
      NamedKeepsInv(settled, NextQueued(settled).value, env);
    }
    StatusIsNotARecord(settled, Blocked, settled.tier);
    var advanced := Advance(settled, env).0;
    assert Inv(advanced);
    var mapped := CardStatusFor(item, Pending(advanced));
    if mapped.Some? {
      StatusIsNotARecord(advanced, mapped.value, advanced.tier);
    }
  }

  /** Whatever is called in whatever order: a stage in flight or complete has a key to join on, and a verification only ever runs, finishes or fails on a completed build. */
  lemma {:induction false} EveryRunKeepsInv(card: Card, steps: seq<Step>, n: nat)
    requires card.runs == map[] && card.cardKey != "" && n <= |steps|
    ensures Inv(At(card, steps, n)) && At(card, steps, n).cardKey == card.cardKey
  {
    if n > 0 {
      EveryRunKeepsInv(card, steps, n - 1);
      StepKeepsInv(At(card, steps, n - 1), steps[n - 1]);
    }
  }

  /** DONE is absorbing. */
  lemma {:induction false} DoneIsAbsorbing(card: Card, steps: seq<Step>, i: nat, j: nat, stage: Stage)
    requires i <= j <= |steps| && StageStatus(At(card, steps, i), stage) == Some(Done)
    ensures StageStatus(At(card, steps, j), stage) == Some(Done)
  {
    if i < j {
      DoneIsAbsorbing(card, steps, i, j - 1, stage);
      StepMoves(At(card, steps, j - 1), steps[j - 1], stage);
    }
  }

  /** The correlation key is written once. */
  lemma {:induction false} KeyIsWrittenOnce(card: Card, steps: seq<Step>, i: nat, j: nat)
    requires card.runs == map[] && card.cardKey != "" && i <= j <= |steps| && HasKey(At(card, steps, i))
    ensures At(card, steps, j).key == At(card, steps, i).key
  {
    if i < j {
      KeyIsWrittenOnce(card, steps, i, j - 1);
      EveryRunKeepsInv(card, steps, j - 1);
      StepKeepsInv(At(card, steps, j - 1), steps[j - 1]);
    }
  }

  /** Two sends of one stage are always separated by that stage failing. */
  lemma {:induction false} SendsSeparatedByFailure(card: Card, steps: seq<Step>, i: nat, j: nat, stage: Stage) returns (k: nat)
    requires i < j < |steps|
    requires Sends(At(card, steps, i), steps[i], stage) && Sends(At(card, steps, j), steps[j], stage)
    ensures i < k <= j && StageStatus(At(card, steps, k), stage) == Some(Failed)
  {
    SentAt(card, steps, j, stage);
    k := FailureAfterSend(card, steps, i, j, stage);
  }

  lemma FailureAfterSend(card: Card, steps: seq<Step>, i: nat, j: nat, stage: Stage) returns (k: nat)
    requires i < j < |steps| && Sends(At(card, steps, i), steps[i], stage)
    requires StageStatus(At(card, steps, j), stage) !in {Some(Dispatched), Some(Done)}
    ensures i < k <= j && StageStatus(At(card, steps, k), stage) == Some(Failed)
  {
    SentAt(card, steps, i, stage);
    k := FailureBetween(card, steps, i + 1, j, stage);
  }

  lemma SentAt(card: Card, steps: seq<Step>, i: nat, stage: Stage)
    requires i < |steps| && Sends(At(card, steps, i), steps[i], stage)
    ensures StageStatus(At(card, steps, i), stage) !in {Some(Dispatched), Some(Done)}
    ensures StageStatus(At(card, steps, i + 1), stage) in {Some(Dispatched), Some(Failed)}
  {
    StepMoves(At(card, steps, i), steps[i], stage);
  }

  lemma {:induction false} FailureBetween(card: Card, steps: seq<Step>, i: nat, j: nat, stage: Stage) returns (k: nat)
    requires i <= j < |steps|
    requires StageStatus(At(card, steps, i), stage) in {Some(Dispatched), Some(Done), Some(Failed)}
    requires StageStatus(At(card, steps, j), stage) !in {Some(Dispatched), Some(Done)}
    ensures i <= k <= j && StageStatus(At(card, steps, k), stage) == Some(Failed)
    decreases j - i
  {
    if StageStatus(At(card, steps, i), stage) == Some(Failed) {
      k := i;
    } else {
      StepMoves(At(card, steps, i), steps[i], stage);
      assert At(card, steps, i + 1) == Next(At(card, steps, i), steps[i]);
      k := FailureBetween(card, steps, i + 1, j, stage);
    }
  }

  // ----- runs of the sequence alone -----

  predicate SequenceStep(step: Step) {
    step.Start? || step.Event? || step.Edit?
  }

  /** A DONE prefix of length `k`, then at most one stage in flight or failed, then only queued ones. */
  predicate DonePrefix(card: Card, k: nat) {
    && (forall i :: 0 <= i < 3 && i < k ==> StageStatus(card, SEQUENCE[i]) == Some(Done))
    && (k < 3 ==> StageStatus(card, SEQUENCE[k]) in {Some(Queued), Some(Dispatched), Some(Failed)})
    && (forall i :: k < i < 3 ==> StageStatus(card, SEQUENCE[i]) == Some(Queued))
  }

  ghost predicate Shape(card: Card) {
    (forall s: Stage :: StageStatus(card, s) == None) || exists k :: 0 <= k <= 3 && DonePrefix(card, k)
  }

  predicate StatusesAre(card: Card, plan: RunStatus, code: RunStatus, test: RunStatus) {
    StageStatus(card, Plan) == Some(plan) && StageStatus(card, Code) == Some(code) && StageStatus(card, Test) == Some(test)
  }

  predicate Open(r: RunStatus) {
    r != Done
  }

  /** `Shape`, spelled out per stage. */
  predicate Spelled(card: Card) {
    || (StageStatus(card, Plan) == None && StageStatus(card, Code) == None && StageStatus(card, Test) == None)
    || StatusesAre(card, Done, Done, Done)
    || (exists r :: Open(r) && (StatusesAre(card, Done, Done, r) || StatusesAre(card, Done, r, Queued) || StatusesAre(card, r, Queued, Queued)))
  }

  lemma ShapeSpelled(card: Card)
    ensures Shape(card) <==> Spelled(card)
  {
    assert SEQUENCE[0] == Plan && SEQUENCE[1] == Code && SEQUENCE[2] == Test;
    if Shape(card) {
      if k :| 0 <= k <= 3 && DonePrefix(card, k) {
        if k < 3 {
          assert Open(StageStatus(card, SEQUENCE[k]).value);
        }
        if k == 0 {
          assert StatusesAre(card, card.runs[Plan], Queued, Queued);
        } else if k == 1 {
          assert StatusesAre(card, Done, card.runs[Code], Queued);
        } else if k == 2 {
          assert StatusesAre(card, Done, Done, card.runs[Test]);
        }
      }
    }
    if Spelled(card) {
      if StatusesAre(card, Done, Done, Done) {
        assert DonePrefix(card, 3);
      } else if StageStatus(card, Plan) != None {
        var r :| Open(r) && (StatusesAre(card, Done, Done, r) || StatusesAre(card, Done, r, Queued) || StatusesAre(card, r, Queued, Queued));
        assert DonePrefix(card, 0) || DonePrefix(card, 1) || DonePrefix(card, 2);
      } else {
        forall s: Stage
          ensures StageStatus(card, s) == None
        {
          assert s == Plan || s == Code || s == Test;
        }
      }
    }
  }

  lemma SequenceKeepsSpelled(card: Card, step: Step)
    requires Spelled(card) && SequenceStep(step)
    ensures Spelled(Next(card, step))
  {
    match step
    case Start(env) => StartKeepsSpelled(card, env);
    case Event(item, env) => EventKeepsSpelled(card, item, env);
    case _ =>
  }

  lemma SpellOpen(card: Card, r: RunStatus)
    requires Open(r) && (StatusesAre(card, Done, Done, r) || StatusesAre(card, Done, r, Queued) || StatusesAre(card, r, Queued, Queued))
    ensures Spelled(card)
  {
  }

  lemma StartKeepsSpelled(card: Card, env: Env)
    requires Spelled(card)
    ensures Spelled(StartSequence(card, env).0)
  {
    RequeueKeeps(card);
    var card' := StartSequence(card, env).0;
    if card' != card {
      var r := StageStatus(card', Todo(card)[0]).value;
      assert Open(r);
      SpellOpen(card', r);
    }
  }

  lemma EventKeepsSpelled(card: Card, item: WorkItem, env: Env)
    requires Spelled(card)
    ensures Spelled(ApplyStatus(card, item, env).0)
  {
    SettleKeeps(card, item);
    var settled := Settle(card, item);
    var card' := ApplyStatus(card, item, env).0;
    if card.key == Some(item.key) && StageStatus(card, Plan) != None {
      if StageStatus(card', Plan) != Some(Done) {
        SpellOpen(card', StageStatus(card', Plan).value);
      } else if StageStatus(card', Code) != Some(Done) {
        SpellOpen(card', StageStatus(card', Code).value);
      } else if StageStatus(card', Test) != Some(Done) {
        SpellOpen(card', StageStatus(card', Test).value);
      }
    }
  }

  /** Driven only by `run` and completion events, the records always read: complete stages, then at most one in flight or failed, then queued ones. */
  lemma {:induction false} SequenceRunsKeepShape(card: Card, steps: seq<Step>, n: nat)
    requires card.runs == map[] && n <= |steps| && forall step :: step in steps ==> SequenceStep(step)
    ensures Shape(At(card, steps, n))
  {
    if n > 0 {
      SequenceRunsKeepShape(card, steps, n - 1);
      ShapeSpelled(At(card, steps, n - 1));
      SequenceKeepsSpelled(At(card, steps, n - 1), steps[n - 1]);
    }
    ShapeSpelled(At(card, steps, n));
  }

  /** A failed stage stops the sequence: completion events send nothing until `run` is asked for again, and the queued stages stay queued. */
  lemma FailedStageStopsSends(card: Card, item: WorkItem, env: Env)
    requires AnyStage(card, Failed)
    ensures ApplyStatus(card, item, env).1.sent == None
    ensures forall s: Stage :: StageStatus(card, s) == Some(Queued) ==> StageStatus(ApplyStatus(card, item, env).0, s) == Some(Queued)
  {
    if card.key == Some(item.key) {
      SettleKeeps(card, item);
      assert AnyStage(Settle(card, item), Failed);
      EventRecords(card, item, env);
      FailedStopsAdvance(Settle(card, item), env);
    }
  }

  lemma FailedStopsAdvance(card: Card, env: Env)
    requires AnyStage(card, Failed)
    ensures Advance(card, env).1.sent == None && Advance(card, env).0.runs == card.runs
  {
  }

  function Weight(r: Option<RunStatus>): nat {
    match r case Some(Queued) => 2 case Some(Dispatched) => 1 case _ => 0
  }

  /** How much the records can still move on completion events alone. */
  function Measure(card: Card): nat {
    Weight(StageStatus(card, Plan)) + Weight(StageStatus(card, Code)) + Weight(StageStatus(card, Test))
  }

  lemma SettleDecreases(card: Card, item: WorkItem)
    ensures Settle(card, item).runs == card.runs || Measure(Settle(card, item)) < Measure(card)
  {
    SettleKeeps(card, item);
    var settled := Settle(card, item);
    if s :| s in card.runs && settled.runs[s] != card.runs[s] {
      assert StageStatus(card, s) == Some(Dispatched);
      assert s == Plan || s == Code || s == Test;
    }
  }

  lemma SendDecreases(card: Card, stage: Stage, reply: Reply)
    requires StageStatus(card, stage) == Some(Queued)
    ensures Measure(Send(card, stage, reply)) < Measure(card)
  {
    var card' := Send(card, stage, reply);
    assert forall s: Stage :: s != stage ==> StageStatus(card', s) == StageStatus(card, s);
  }

  lemma MeasureOfRuns(a: Card, b: Card)
    requires a.runs == b.runs
    ensures Measure(a) == Measure(b)
  {
    assert forall s: Stage :: StageStatus(a, s) == StageStatus(b, s);
  }

  /** A completion event that changes any record brings the measure down. */
  lemma EventsDecrease(card: Card, item: WorkItem, env: Env)
    ensures var card' := ApplyStatus(card, item, env).0;
      card'.runs == card.runs || Measure(card') < Measure(card)
  {
    var settled := Settle(card, item);
    var (advanced, outcome) := Advance(settled, env);
    var card' := ApplyStatus(card, item, env).0;
    SettleDecreases(card, item);
    if card.key == Some(item.key) {
      MeasureOfRuns(card', advanced);
      if outcome.sent.Some? {
        SendDecreases(settled, outcome.sent.value, env.reply);
      } else {
        MeasureOfRuns(advanced, settled);
      }
      if settled.runs == card.runs {
        MeasureOfRuns(card, settled);
      }
    }
  }

  /** How many of the first `n` steps changed a record. */
  function Changes(card: Card, steps: seq<Step>, n: nat): nat
    requires n <= |steps|
  {
    if n == 0 then 0
    else Changes(card, steps, n - 1) + if At(card, steps, n).runs == At(card, steps, n - 1).runs then 0 else 1
  }

  /** So at most six completion events can ever change the records before `run` is asked for again. */
  lemma {:induction false} EventsSettle(card: Card, steps: seq<Step>, n: nat)
    requires n <= |steps| && forall step :: step in steps ==> step.Event? || step.Edit?
    ensures Changes(card, steps, n) + Measure(At(card, steps, n)) <= Measure(card) <= 6
  {
    if n > 0 {
      EventsSettle(card, steps, n - 1);
      var c, step := At(card, steps, n - 1), steps[n - 1];
      if step.Event? {
        EventsDecrease(c, step.item, step.env);
      }
    }
  }

  /** A card a completion event moves to `done` owes nothing: no stage queued, none in flight. */
  lemma FinishedOwesNothing(card: Card, item: WorkItem, env: Env)
    requires ApplyStatus(card, item, env).0.status == Finished && card.status != Finished
    ensures forall s: Stage :: StageStatus(ApplyStatus(card, item, env).0, s) !in {Some(Queued), Some(Dispatched)}
  {
    var advanced := Advance(Settle(card, item), env).0;
    var card' := ApplyStatus(card, item, env).0;
    assert card'.runs == advanced.runs;
    assert forall s: Stage :: StageStatus(card', s) == StageStatus(advanced, s);
  }

  /** An advance whose send the next door rejects does not always leave the card blocked: it is blocked exactly when the item's furthest slice is stuck or there is no slice at all. */
  lemma RejectedAdvanceBlocksIff(card: Card, item: WorkItem, env: Env)
    requires ApplyStatus(card, item, env).1.sent.Some? && env.reply.Rejected?
    ensures var (card', outcome) := ApplyStatus(card, item, env);
      && StageStatus(card', outcome.sent.value) == Some(Failed)
      && (card'.status == Blocked <==> Furthest(item) in {NoStatus, Stuck})
  {
  }

  /** Run, plan, build, and a verification the door rejects: the card reads `done` with its TEST stage failed. */
  lemma DoneThoughUntested(key: string, ref: string)
    requires key != "" && ref != ""
    ensures var steps := [Start(Env(true, Accepted(Some(ref)))),
                          Event(WorkItem(ref, Complete, NoStatus, NoStatus), Env(true, Accepted(None))),
                          Event(WorkItem(ref, Complete, Complete, NoStatus), Env(true, Rejected))];
      var card := At(Card(key, Some(Medium), Backlog, None, map[]), steps, 3);
      card.status == Finished && StageStatus(card, Test) == Some(Failed)
  {
    var steps := [Start(Env(true, Accepted(Some(ref)))),
                  Event(WorkItem(ref, Complete, NoStatus, NoStatus), Env(true, Accepted(None))),
                  Event(WorkItem(ref, Complete, Complete, NoStatus), Env(true, Rejected))];
    var c0 := Card(key, Some(Medium), Backlog, None, map[]);
    RequeueKeeps(c0);
    assert Todo(c0)[0] == Plan;
    assert !AnyStage(c0, Dispatched);
    var c1 := Next(c0, steps[0]);
    assert c1 == Send(Requeued(c0), Plan, Accepted(Some(ref)));
    assert StatusesAre(c1, Dispatched, Queued, Queued) && c1.key == Some(ref);
    var c2 := Next(c1, steps[1]);
    SettleKeeps(c1, steps[1].item);
    var s1 := Settle(c1, steps[1].item);
    SettledThenSends(s1, Done, Queued, Queued, Code, steps[1].env);
    assert c2.runs == Send(s1, Code, Accepted(None)).runs;
    assert StatusesAre(c2, Done, Dispatched, Queued) && c2.key == Some(ref);
    var c3 := Next(c2, steps[2]);
    SettleKeeps(c2, steps[2].item);
    var s2 := Settle(c2, steps[2].item);
    SettledThenSends(s2, Done, Done, Queued, Test, steps[2].env);
    assert c3.runs == Send(s2, Test, Rejected).runs;
    NotPending(Send(s2, Test, Rejected));
    assert At(c0, steps, 1) == c1 && At(c0, steps, 2) == c2 && At(c0, steps, 3) == c3;
  }

  lemma SettledThenSends(card: Card, plan: RunStatus, code: RunStatus, test: RunStatus, stage: Stage, env: Env)
    requires card.tier.Some? && HasKey(card) && env.project && StatusesAre(card, plan, code, test)
    requires plan == Done && test == Queued && ((code == Queued && stage == Code) || (code == Done && stage == Test))
    ensures Advance(card, env) == (Send(card, stage, env.reply), SendOutcome(stage, env.reply))
  {
    forall s: Stage
      ensures StageStatus(card, s) !in {Some(Dispatched), Some(Failed)}
    {
      assert s == Plan || s == Code || s == Test;
    }
  }

  lemma NotPending(card: Card)
    requires StatusesAre(card, Done, Done, Failed)
    ensures !Pending(card)
  {
    forall s: Stage
      ensures StageStatus(card, s) !in {Some(Queued), Some(Dispatched)}
    {
      assert s == Plan || s == Code || s == Test;
    }
  }
}
