/**
  What the autoscaler writes to the EDS, over whole runs: every published operation is the right
  decision from a copy it listed, and the recorded times change with the node count only.
*/
module Publishing {
  import opened Base
  import opened Autoscaler
  import opened Metrics
  import opened ControlLoop
  import opened HandoffSafety
  import opened Cooldown
  import DecisionMeaning

  // ----- validation -----

  /** Settings are accepted exactly when scaling is off or the numbers fit each other. */
  lemma AcceptedExactly(c: Settings)
    ensures Validate(None).None?
    ensures Validate(Some(c)).None?
       <==> !c.enabled || (&& 1 <= c.minReplicas <= c.maxReplicas
                           && c.minIndexReplicas <= c.maxIndexReplicas
                           && c.minShardsPerNode <= c.maxShardsPerNode
                           && c.minIndexReplicas < c.minReplicas && c.maxIndexReplicas < c.maxReplicas)
  {
  }

  // ----- from the decision to the update -----

  /** The hint and the operation of a decision at j, in times, samples and numbers. */
  ghost predicate DecidedRightly(c: Settings, s: State, a: Action, op: Operation) {
    && s.scaler.Listed? && a.DecideScaling? && a.interval > 0 && CrdMinima(c)
    && var snap := s.scaler.snap;
       var h := HintInput(snap.lastUp, snap.lastDown, s.now, s.now);
       && Desired(c, snap).Some?
       && (snap.pending.Some? ==> snap.pending.value.operation.direction == NONE)
       && exists hint: Direction ::
            && (hint == DOWN <==> DownDue(c, a.interval, a.metrics, h))
            && (hint == UP <==> UpDue(c, a.interval, a.metrics, h) && !DownDue(c, a.interval, a.metrics, h))
            && FromDecision(c, a.first, a.second, hint, Desired(c, snap).value, a.disk, op)
  }

  /** The right decision, or none where there are no indices or a safety check objects. */
  ghost predicate FromDecision(c: Settings, first: seq<Index>, second: seq<Index>, hint: Direction, nodes: int,
                               disk: seq<real>, op: Operation) {
    || DecisionMeaning.NothingToDo(op)
    || (first != [] && !DecisionMeaning.DiskTooFull(c, op, disk)
        && DecisionMeaning.RightDecision(c, first, second, hint, nodes, op))
  }

  lemma DecisionStep(c: Settings, s: State, a: Action, t: State)
    requires CrdMinima(c) && a.DecideScaling? && DecideStep(c, s, a, t)
    ensures t.scaler.Decided? && DecidedRightly(c, s, a, t.scaler.op)
    ensures Some(t.scaler.current) == Desired(c, s.scaler.snap)
  {
    var snap := s.scaler.snap;
    var h := HintInput(snap.lastUp, snap.lastDown, s.now, s.now);
    var hint := Hint(c, a.interval, a.metrics, h);
    HintComesExactly(c, a.interval, a.metrics, h);
    DecisionMeaning.WithdrawnExactly(c, a.first, a.second, hint, Desired(c, snap), a.disk);
    hide Hint, CalculateOperation, Desired, Decidable, DownDue, UpDue, DecisionMeaning.RightDecision,
         DecisionMeaning.DiskTooFull, Decide;
    assert FromDecision(c, a.first, a.second, hint, Desired(c, snap).value, a.disk, t.scaler.op);
  }

  /** What each step does to the autoscaler's own variables. */
  ghost predicate Link(c: Settings, s: State, a: Action, t: State) {
    match t.scaler
    case Decided(snap, op, current, hint) =>
      t.scaler == s.scaler
      || (a.DecideScaling? && DecidedRightly(c, s, a, op) && s.scaler.snap == snap && Some(current) == Desired(c, snap))
    case Recorded(_, replicas, op) =>
      t.scaler == s.scaler
      || (a.RecordScaling? && s.scaler.Decided? && op == s.scaler.op
          && replicas == if op.nodeReplicas.Some? then op.nodeReplicas.value else s.scaler.current)
    case _ => true
  }

  lemma StepIsLink(c: Settings, s: State, a: Action, t: State)
    requires CrdMinima(c) && Next(c, s, a, t)
    ensures Link(c, s, a, t)
  {
    StepOfGroup(c, s, a, t);
    hide OperateAction, UpdateAction, RescaleAction, DrainAction, HookAction, ScalerAction, EnvAction, Link;
    match GroupOf(a)
    case OfScaler => LinkScaler(c, s, a, t);
    case _ => SameScaler(c, s, a, t);
  }

  lemma SameScaler(c: Settings, s: State, a: Action, t: State)
    requires CrdMinima(c) && Next(c, s, a, t) && GroupOf(a) != OfScaler
    ensures Link(c, s, a, t) && t.scaler == s.scaler && t.written == s.written
  {
    StepOfGroup(c, s, a, t);
    hide OperateAction, UpdateAction, RescaleAction, DrainAction, HookAction, ScalerAction, EnvAction, Next,
         DecidedRightly;
    match GroupOf(a)
    case OfOperate => OperateFrames(c, s, a, t);
    case OfUpdate => UpdateFrames(c, s, a, t);
    case OfRescale => RescaleFrames(c, s, a, t);
    case OfDrain => DrainFrames(c, s, a, t);
    case OfHook => HookFrames(s, a, t);
    case OfEnvironment => EnvFrames(s, a, t);
  }

  lemma LinkScaler(c: Settings, s: State, a: Action, t: State)
    requires CrdMinima(c) && ScalerAction(c, s, a, t)
    ensures Link(c, s, a, t)
  {
    if a.DecideScaling? {
      DecisionStep(c, s, a, t);
    }
    hide CalculateOperation, Hint, Desired, Decidable, DecidedRightly;
  }

  ghost predicate Linked(c: Settings, run: seq<State>, actions: seq<Action>) {
    && |run| == |actions| + 1 && run[0].scaler.Resting?
    && forall i :: 0 <= i < |actions| ==> Link(c, run[i], actions[i], run[i + 1])
  }

  lemma RunIsLinked(c: Settings, run: seq<State>, actions: seq<Action>)
    requires CrdMinima(c) && Run(c, run, actions)
    ensures Linked(c, run, actions)
  {
    RunBegins(c, run, actions);
    forall i | 0 <= i < |actions| ensures Link(c, run[i], actions[i], run[i + 1]) {
      RunStep(c, run, actions, i);
      StepIsLink(c, run[i], actions[i], run[i + 1]);
    }
    hide Run, Next, Link;
  }

  /** The decision at j is the one the autoscaler holds at i. */
  ghost predicate Made(c: Settings, run: seq<State>, actions: seq<Action>, j: nat, op: Operation, current: int)
    requires j < |run|
  {
    && j < |actions| && DecidedRightly(c, run[j], actions[j], op)
    && Desired(c, run[j].scaler.snap) == Some(current)
  }

  lemma {:induction false} DecidedAt(c: Settings, run: seq<State>, actions: seq<Action>, i: nat) returns (j: nat)
    requires Linked(c, run, actions) && i < |run| && run[i].scaler.Decided?
    ensures j < i && Made(c, run, actions, j, run[i].scaler.op, run[i].scaler.current)
  {
    hide DecidedRightly, Desired;
    assert i > 0;
    assert Link(c, run[i - 1], actions[i - 1], run[i]);
    if run[i].scaler == run[i - 1].scaler {
      j := DecidedAt(c, run, actions, i - 1);
    } else {
      j := i - 1;
    }
  }

  lemma {:induction false} RecordedAt(c: Settings, run: seq<State>, actions: seq<Action>, i: nat)
    returns (j: nat, current: int)
    requires Linked(c, run, actions) && i < |run| && run[i].scaler.Recorded?
    ensures j < i && Made(c, run, actions, j, run[i].scaler.op, current)
    ensures var nodes := run[i].scaler.op.nodeReplicas;
            run[i].scaler.replicas == if nodes.Some? then nodes.value else current
  {
    hide DecidedRightly, Desired, Made;
    assert i > 0;
    assert Link(c, run[i - 1], actions[i - 1], run[i]);
    if run[i].scaler == run[i - 1].scaler {
      j, current := RecordedAt(c, run, actions, i - 1);
    } else {
      j := DecidedAt(c, run, actions, i - 1);
      current := run[i - 1].scaler.current;
    }
  }

  /** A step that adds an operation publishes one that has a direction, with the node count it goes with. */
  lemma PublishStepMeaning(c: Settings, s: State, a: Action, t: State)
    requires CrdMinima(c) && Next(c, s, a, t)
    ensures t.written != s.written ==>
              && a.PublishScaling? && s.scaler.Recorded? && s.scaler.op.direction != NONE
              && t.written == s.written + [s.scaler.op]
              && t.eds.pending == Some(Pending(|s.written|, s.scaler.op))
              && t.eds.replicas == Some(s.scaler.replicas)
    ensures a.PublishScaling? ==>
              && s.scaler.Recorded?
              && (t.written == s.written <==> s.scaler.op.direction == NONE)
  {
    StepOfGroup(c, s, a, t);
    if GroupOf(a) == OfScaler {
      PublishScaler(c, s, a, t);
    } else {
      SameScaler(c, s, a, t);
    }
    hide Next, ScalerAction, Link;
  }

  lemma PublishScaler(c: Settings, s: State, a: Action, t: State)
    requires CrdMinima(c) && ScalerAction(c, s, a, t)
    ensures !a.PublishScaling? ==> t.written == s.written
    ensures a.PublishScaling? ==> PublishStep(s, t)
  {
    hide CalculateOperation, Hint, Desired, Decidable;
  }

  /**
    Main result. In every run an operation that is published has a direction and is the right decision
    from the copy of the EDS listed for it, at the time it was made and with nothing pending in that
    copy; with it spec.replicas becomes the count it asks for, or stays the desired one.
  */
  lemma PublishedIsDecided(c: Settings, run: seq<State>, actions: seq<Action>, i: nat) returns (j: nat, current: int)
    requires CrdMinima(c) && Run(c, run, actions) && i < |actions| && run[i + 1].written != run[i].written
    ensures actions[i].PublishScaling? && run[i].scaler.Recorded?
    ensures var op := run[i].scaler.op;
            && j < i && Made(c, run, actions, j, op, current) && op.direction != NONE
            && run[i + 1].written == run[i].written + [op]
            && run[i + 1].eds.pending == Some(Pending(|run[i].written|, op))
            && run[i + 1].eds.replicas == Some(if op.nodeReplicas.Some? then op.nodeReplicas.value else current)
  {
    RunStep(c, run, actions, i);
    PublishStepMeaning(c, run[i], actions[i], run[i + 1]);
    RunIsLinked(c, run, actions);
    j, current := RecordedAt(c, run, actions, i);
    hide Run, Next, Linked, Made;
  }

  /**
    Main result. In every run a decision has the UP hint exactly when the samples of the whole UP window
    are above the boundary, more than the cool-down has passed since the last scale-up its copy of the
    EDS records, if any, and DOWN is not due; and the DOWN hint exactly when that is due.
  */
  lemma HintOfDecision(c: Settings, run: seq<State>, actions: seq<Action>, i: nat)
    requires CrdMinima(c) && Run(c, run, actions) && i < |actions| && actions[i].DecideScaling?
    ensures run[i].scaler.Listed? && run[i + 1].scaler.Decided?
    ensures var a, snap, now := actions[i], run[i].scaler.snap, run[i].now;
            var h := HintInput(snap.lastUp, snap.lastDown, now, now);
            var hint := run[i + 1].scaler.hint;
            && a.interval > 0
            && (hint == DOWN <==> DownDue(c, a.interval, a.metrics, h))
            && (hint == UP <==> UpDue(c, a.interval, a.metrics, h) && !DownDue(c, a.interval, a.metrics, h))
  {
    RunStep(c, run, actions, i);
    StepOfGroup(c, run[i], actions[i], run[i + 1]);
    var a, snap, now := actions[i], run[i].scaler.snap, run[i].now;
    hide Run, Next, CalculateOperation, Desired, Decidable, DownDue, UpDue;
    HintComesExactly(c, a.interval, a.metrics, HintInput(snap.lastUp, snap.lastDown, now, now));
    hide Hint;
  }

  // ----- the recorded times -----

  /** Only recording a larger count changes the time of the last scale-up, and only a smaller one that of the other. */
  lemma StampsOfStep(c: Settings, s: State, a: Action, t: State)
    requires CrdMinima(c) && Next(c, s, a, t) && CopiesInv(s)
    ensures t.eds.lastUp != s.eds.lastUp ==> RecordsIncrease(s, a) && t.eds.lastUp == Some(s.now)
    ensures t.eds.lastDown != s.eds.lastDown ==> RecordsDecrease(s, a) && t.eds.lastDown == Some(s.now)
  {
    StepOfGroup(c, s, a, t);
    hide Next, OperateAction, UpdateAction, RescaleAction, DrainAction, HookAction, ScalerAction, EnvAction, CopiesInv;
    match GroupOf(a)
    case OfOperate => StampsOperate(c, s, a, t);
    case OfScaler => StampsScaler(c, s, a, t);
    case OfUpdate => UpdateFrames(c, s, a, t);
    case OfRescale => RescaleFrames(c, s, a, t);
    case OfDrain => DrainFrames(c, s, a, t);
    case OfHook => HookFrames(s, a, t);
    case OfEnvironment => EnvFrames(s, a, t);
  }

  lemma StampsOperate(c: Settings, s: State, a: Action, t: State)
    requires OperateAction(c, s, a, t) && CopiesInv(s)
    ensures t.eds.lastUp == s.eds.lastUp && t.eds.lastDown == s.eds.lastDown
  {
    hide Desired;
  }

  lemma StampsScaler(c: Settings, s: State, a: Action, t: State)
    requires CrdMinima(c) && ScalerAction(c, s, a, t)
    ensures t.eds.lastUp != s.eds.lastUp ==> RecordsIncrease(s, a) && t.eds.lastUp == Some(s.now)
    ensures t.eds.lastDown != s.eds.lastDown ==> RecordsDecrease(s, a) && t.eds.lastDown == Some(s.now)
  {
    hide CalculateOperation, Hint, Desired, Decidable;
  }

  /** Main result. In every run the recorded times change exactly when a changed node count is recorded. */
  lemma StampsChangeExactly(c: Settings, run: seq<State>, actions: seq<Action>, i: nat)
    requires CrdMinima(c) && Run(c, run, actions) && PastTimes(run[0]) && i < |actions|
    ensures run[i + 1].eds.lastUp
         == if RecordsIncrease(run[i], actions[i]) then Some(run[i].now) else run[i].eds.lastUp
    ensures run[i + 1].eds.lastDown
         == if RecordsDecrease(run[i], actions[i]) then Some(run[i].now) else run[i].eds.lastDown
  {
    CooldownAlways(c, run, actions, i);
    HandoffAlways(c, run, actions, i);
    RunStep(c, run, actions, i);
    assert CopiesInv(run[i]) by {
      hide CopiesInv, StoredInv, HookCopiesInv, ProgressInv, DecrementInv;
    }
    hide Run, Next, CooldownInv, CopiesInv, HandoffInv, RecordsIncrease, RecordsDecrease;
    RecordStamps(c, run[i], actions[i], run[i + 1]);
    StampsOfStep(c, run[i], actions[i], run[i + 1]);
  }
}
