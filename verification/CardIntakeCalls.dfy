/** What one intake call does to a card, said of its records, its key, its column and the work item's slices. */
module CardIntakeCalls {
  import opened Prelude
  import opened CardIntake
  import opened CardIntakeRuns

  predicate InFlight(card: Card) {
    exists s: Stage :: StageStatus(card, s) == Some(Dispatched)
  }

  /** The card has a key to join on: one that is set and not empty. */
  predicate Keyed(card: Card) {
    card.key.Some? && card.key.value != ""
  }

  // ----- promotion -----

  /** A promotion knocks on a door exactly for a ready card with a tier, on the planner's when the tier is hard and on the builder's otherwise, when that stage is neither in flight nor complete and a build has a project. */
  lemma PromotionSendsIff(card: Card, env: Env, stage: Stage)
    ensures Sends(card, Promote(env), stage) <==>
      && card.status == Ready && card.tier.Some?
      && stage == (if card.tier == Some(Hard) then Plan else Code)
      && StageStatus(card, stage) !in {Some(Dispatched), Some(Done)}
      && (stage == Plan || env.project)
  {
  }

  /** One that knocks on none leaves the card as it is, save that a card due to be built without a project is blocked. */
  lemma PromotionWithoutSend(card: Card, env: Env)
    requires forall s: Stage :: !Sends(card, Promote(env), s)
    ensures var (after, outcome) := Apply(card, Promote(env));
      var stuck := card.status == Ready && card.tier.Some? && card.tier != Some(Hard) && StageStatus(card, Code) !in {Some(Dispatched), Some(Done)} && !env.project;
      after == (if stuck then card.(status := Blocked) else card) && outcome.ok == !stuck && outcome.refused.None?
  {
    if MaybeDispatch(card, env).1.sent.Some? {
      assert Sends(card, Promote(env), MaybeDispatch(card, env).1.sent.value);
    }
  }

  // ----- refusals and the key -----

  /** Which refusal a named stage gets, in the order the rules are asked. */
  lemma NamedRefusals(card: Card, stage: Stage, env: Env)
    ensures var refused := Apply(card, Named(stage, env)).1.refused;
      var status := StageStatus(card, stage);
      var asked := status != Some(Done);
      && (refused == Some(NoTier) <==> asked && card.tier.None?)
      && (refused == Some(StageAlreadyRunning) <==> asked && card.tier.Some? && status == Some(Dispatched))
      && (refused == Some(NoBuildToVerify) <==>
            asked && card.tier.Some? && status != Some(Dispatched) && stage == Test && !(Keyed(card) && StageStatus(card, Code) == Some(Done)))
      && (refused == Some(NoIntakeProject) <==>
            && asked && card.tier.Some? && status != Some(Dispatched) && stage != Plan && !env.project
            && (stage == Test ==> Keyed(card) && StageStatus(card, Code) == Some(Done)))
  {
  }

  /** A stage already complete is skipped, and so is a `run` with nothing left to do: no door, no refusal, nothing written, and the call reports success. */
  lemma CompleteIsSkipped(card: Card, stage: Stage, env: Env)
    ensures StageStatus(card, stage) == Some(Done) ==> Apply(card, Named(stage, env)) == (card, Outcome(true, None, None))
    ensures card.tier.Some? && (forall s: Stage :: StageStatus(card, s) == Some(Done)) ==> Apply(card, Start(env)) == (card, Outcome(true, None, None))
  {
  }

  /** What a call reports: a send is fine exactly when its door accepts, and a refusal never is. */
  lemma ReportsOfCalls(card: Card, step: Step)
    requires step.Named? || step.Start? || step.Promote?
    ensures var outcome := Apply(card, step).1;
      && (outcome.sent.Some? ==> outcome.refused.None? && (outcome.ok <==> step.env.reply.Accepted?))
      && (outcome.refused.Some? ==> !outcome.ok && outcome.sent.None?)
  {
  }

  /** Whichever call sends, an accepted stage keeps a key the card has, and otherwise takes the door's own id or, without one, the card's; a rejected one leaves the key. */
  lemma SentStageKeys(card: Card, step: Step, stage: Stage)
    requires Sends(card, step, stage) && !step.Edit?
    ensures var after := Next(card, step);
      && StageStatus(after, stage) == Some(if step.env.reply.Accepted? then Dispatched else Failed)
      && after.key == (match step.env.reply
                       case Rejected => card.key
                       case Accepted(ref) =>
                         if Keyed(card) then card.key else if ref.Some? && ref.value != "" then ref else Some(card.cardKey))
  {
    if step.Event? {
      EventRecords(card, step.item, step.env);
    }
  }

  // ----- run -----

  /** `run` sends a stage exactly when the card has a tier, nothing is in flight, the stage is the first not complete, and a build has a project and a verification a key. */
  lemma RunSendsIff(card: Card, env: Env, stage: Stage)
    ensures Sends(card, Start(env), stage) <==>
      && card.tier.Some? && !InFlight(card)
      && StageStatus(card, stage) != Some(Done)
      && (stage != Plan ==> StageStatus(card, Plan) == Some(Done))
      && (stage == Test ==> StageStatus(card, Code) == Some(Done) && Keyed(card))
      && (stage == Plan || env.project)
  {
    RequeueKeeps(card);
    assert HasKey(Requeued(card)) == HasKey(card) && Requeued(card).tier == card.tier;
  }

  /** Once it gets past the first two refusals, every complete stage stays so, the sent one reads what its door answered, and every other reads queued. */
  lemma RunQueuesTheRest(card: Card, env: Env, s: Stage)
    requires card.tier.Some? && !InFlight(card)
    ensures var after := Next(card, Start(env));
      StageStatus(after, s) ==
        if StageStatus(card, s) == Some(Done) then Some(Done)
        else if Sends(card, Start(env), s) then Some(if env.reply.Accepted? then Dispatched else Failed)
        else Some(Queued)
  {
    RequeueKeeps(card);
  }

  /** Why `run` refuses. */
  lemma RunRefusals(card: Card, env: Env)
    ensures var refused := Apply(card, Start(env)).1.refused;
      var complete := forall s: Stage :: StageStatus(card, s) == Some(Done);
      && (refused == Some(NoTier) <==> card.tier.None?)
      && (refused == Some(StageAlreadyRunning) <==> card.tier.Some? && InFlight(card))
      && (refused == Some(NoBuildToVerify) <==>
            card.tier.Some? && !InFlight(card) && !complete && StageStatus(card, Plan) == StageStatus(card, Code) == Some(Done) && !Keyed(card))
      && (refused == Some(NoIntakeProject) <==>
            && card.tier.Some? && !InFlight(card) && !complete && StageStatus(card, Plan) == Some(Done) && !env.project
            && (StageStatus(card, Code) == Some(Done) ==> Keyed(card)))
  {
    RequeueKeeps(card);
    assert HasKey(Requeued(card)) == HasKey(card) && Requeued(card).tier == card.tier;
    forall s: Stage | StageStatus(card, Plan) == StageStatus(card, Code) == StageStatus(card, Test) == Some(Done)
      ensures StageStatus(card, s) == Some(Done)
    {
      assert s == Plan || s == Code || s == Test;
    }
  }

  // ----- completion events -----

  /** What the work item says of a stage. */
  predicate Says(item: WorkItem, stage: Stage, slice: Slice) {
    match stage case Plan => item.plan == slice case Code => item.code == slice case Test => item.test == slice
  }

  lemma SaysOne(item: WorkItem, stage: Stage, slice: Slice)
    ensures Says(item, stage, slice) <==> SliceOf(item, stage) == slice
  {
  }

  /** An event about another key changes nothing. */
  lemma ForeignEventChangesNothing(card: Card, item: WorkItem, env: Env)
    requires card.key != Some(item.key)
    ensures Apply(card, Event(item, env)) == (card, NOTHING_TO_DO)
  {
  }

  /** A stage in flight is settled by what the work item says of it: failed exactly when it is stuck, done exactly when it is complete, and otherwise still in flight. */
  lemma EventSettlesInFlight(card: Card, item: WorkItem, env: Env, stage: Stage)
    requires card.key == Some(item.key) && StageStatus(card, stage) == Some(Dispatched)
    ensures var after := StageStatus(ApplyStatus(card, item, env).0, stage);
      && (after == Some(Failed) <==> Says(item, stage, Stuck))
      && (after == Some(Done) <==> Says(item, stage, Complete))
      && (after == Some(Dispatched) <==> Says(item, stage, NoStatus) || Says(item, stage, Running))
  {
    EventRecords(card, item, env);
    SettleKeeps(card, item);
    EventMovesOne(card, item, env, stage);
  }

  /** Settling, said per stage; and the advance after it moves only the stage it sends. */
  lemma EventMovesOne(card: Card, item: WorkItem, env: Env, stage: Stage)
    requires card.key == Some(item.key)
    ensures var settled := Settle(card, item);
      var (after, outcome) := ApplyStatus(card, item, env);
      StageStatus(after, stage) == if outcome.sent == Some(stage) then Some(if env.reply.Accepted? then Dispatched else Failed) else StageStatus(settled, stage)
    ensures ApplyStatus(card, item, env).1.sent == Some(stage) ==> StageStatus(Settle(card, item), stage) == Some(Queued)
  {
    EventRecords(card, item, env);
    AdvanceMovesOne(Settle(card, item), env, stage);
  }

  lemma AdvanceMovesOne(card: Card, env: Env, stage: Stage)
    ensures var (after, outcome) := Advance(card, env);
      StageStatus(after, stage) == if outcome.sent == Some(stage) then Some(if env.reply.Accepted? then Dispatched else Failed) else StageStatus(card, stage)
    ensures Advance(card, env).1.sent == Some(stage) ==> StageStatus(card, stage) == Some(Queued)
  {
  }

  /** A record that is not in flight moves in an event only by being sent from the queue. */
  lemma EventLeavesOthers(card: Card, item: WorkItem, env: Env, stage: Stage)
    requires StageStatus(card, stage) != Some(Dispatched)
    ensures var after := StageStatus(ApplyStatus(card, item, env).0, stage);
      if Sends(card, Event(item, env), stage) then StageStatus(card, stage) == Some(Queued) && after == Some(if env.reply.Accepted? then Dispatched else Failed)
      else after == StageStatus(card, stage)
  {
    if card.key == Some(item.key) {
      SettleKeeps(card, item);
      EventMovesOne(card, item, env, stage);
    }
  }

  /** An event sends a stage exactly when it is about this card, the stage is the first queued one, no stage has failed, every stage in flight is now complete, and the guards of a send hold. */
  lemma EventSendsIff(card: Card, item: WorkItem, env: Env, stage: Stage)
    ensures Sends(card, Event(item, env), stage) <==>
      && card.key == Some(item.key) && card.tier.Some?
      && StageStatus(card, stage) == Some(Queued)
      && (stage != Plan ==> StageStatus(card, Plan) != Some(Queued))
      && (stage == Test ==> StageStatus(card, Code) in {Some(Dispatched), Some(Done)} && Keyed(card))
      && (forall s: Stage :: StageStatus(card, s) != Some(Failed))
      && (forall s: Stage :: StageStatus(card, s) == Some(Dispatched) ==> Says(item, s, Complete))
      && (stage == Plan || env.project)
  {
    if card.key == Some(item.key) {
      var settled := Settle(card, item);
      SettleKeeps(card, item);
      EventRecords(card, item, env);
      assert HasKey(settled) == HasKey(card) && settled.tier == card.tier;
      forall s: Stage
        ensures StageStatus(settled, s) in {Some(Dispatched), Some(Failed)} <==>
          StageStatus(card, s) == Some(Failed) || (StageStatus(card, s) == Some(Dispatched) && !Says(item, s, Complete))
        ensures StageStatus(settled, s) == Some(Queued) <==> StageStatus(card, s) == Some(Queued)
        ensures StageStatus(settled, s) == Some(Done) <==> StageStatus(card, s) == Some(Done) || (StageStatus(card, s) == Some(Dispatched) && Says(item, s, Complete))
      {
        SaysOne(item, s, Complete);
      }
      AdvanceSendsIff(settled, env, stage);
    }
  }

  lemma AdvanceSendsIff(card: Card, env: Env, stage: Stage)
    ensures Advance(card, env).1.sent == Some(stage) <==>
      && card.tier.Some? && StageStatus(card, stage) == Some(Queued)
      && (stage != Plan ==> StageStatus(card, Plan) != Some(Queued))
      && (stage == Test ==> StageStatus(card, Code) == Some(Done) && Keyed(card))
      && (forall s: Stage :: StageStatus(card, s) !in {Some(Dispatched), Some(Failed)})
      && (stage == Plan || env.project)
  {
  }

  /** An event in which a stage in flight is stuck sends nothing, and what is queued stays queued. */
  lemma StuckStageStopsSequence(card: Card, item: WorkItem, env: Env, stuck: Stage)
    requires card.key == Some(item.key) && StageStatus(card, stuck) == Some(Dispatched) && Says(item, stuck, Stuck)
    ensures ApplyStatus(card, item, env).1.sent.None?
    ensures forall s: Stage :: StageStatus(card, s) == Some(Queued) ==> StageStatus(ApplyStatus(card, item, env).0, s) == Some(Queued)
  {
    var sent := ApplyStatus(card, item, env).1.sent;
    SaysOne(item, stuck, Stuck);
    SaysOne(item, stuck, Complete);
    if sent.Some? {
      EventSendsIff(card, item, env, sent.value);
    }
    forall s: Stage | StageStatus(card, s) == Some(Queued)
      ensures StageStatus(ApplyStatus(card, item, env).0, s) == Some(Queued)
    {
      EventLeavesOthers(card, item, env, s);
    }
  }

  /** A work item that says nothing of any stage leaves the column to the advance: in progress or blocked by a send's answer, blocked by an earlier failure, and otherwise as it was. */
  lemma SilentItemLeavesColumn(card: Card, item: WorkItem, env: Env)
    requires card.key == Some(item.key) && item.plan == item.code == item.test == NoStatus
    ensures var (after, outcome) := ApplyStatus(card, item, env);
      after.status ==
        if outcome.sent.Some? then (if env.reply.Accepted? then InProgress else Blocked)
        else if !InFlight(card) && exists s: Stage :: StageStatus(card, s) == Some(Failed) then Blocked
        else card.status
  {
    SettleKeeps(card, item);
    forall s: Stage
      ensures StageStatus(Settle(card, item), s) == StageStatus(card, s)
    {
    }
  }
}
