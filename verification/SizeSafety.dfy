/**
  The size of the StatefulSet when spec.replicas is set and only the autoscaler writes it:
  its range, the direction of every change, and that index replicas are sent only when the
  nodes an operation asks for are there.
*/
module SizeSafety {
  import opened Base
  import opened Autoscaler
  import opened Pods
  import opened Metrics
  import opened ControlLoop
  import opened RolloutSafety
  import opened HandoffSafety
  import opened Traces
  import AutoscalerRuns

  predicate InRange(c: Settings, n: int) {
    c.minReplicas <= n <= c.maxReplicas
  }

  /** The node count a pending operation asks for. */
  function NodesWanted(pending: Option<Pending>): Option<int> {
    if pending.None? then None else pending.value.operation.nodeReplicas
  }

  /** spec.replicas is set, in range, and what a pending operation asks for. */
  ghost predicate GoodSpec(c: Settings, e: Eds) {
    && e.replicas.Some? && InRange(c, e.replicas.value)
    && (NodesWanted(e.pending).Some? ==> NodesWanted(e.pending) == e.replicas)
  }

  ghost predicate SpecInv(c: Settings, s: State) {
    && GoodSpec(c, s.eds)
    && (HoldsCur(s.loop.pc) ==> GoodSpec(c, s.loop.cur))
    && (HoldsSr(s.loop.pc) || s.loop.pc == Preparing ==> GoodSpec(c, s.loop.sr))
    && (s.scaler.Listed? ==> GoodSpec(c, s.scaler.snap))
    && (s.scaler.Decided? ==>
          InRange(c, s.scaler.current)
          && (s.scaler.op.nodeReplicas.Some? ==> InRange(c, s.scaler.op.nodeReplicas.value)))
    && (s.scaler.Recorded? ==>
          InRange(c, s.scaler.replicas)
          && (s.scaler.op.nodeReplicas.Some? ==> s.scaler.op.nodeReplicas.value == s.scaler.replicas))
  }

  lemma SpecOperate(c: Settings, s: State, a: Action, t: State)
    requires OperateAction(c, s, a, t) && SpecInv(c, s)
    ensures SpecInv(c, t)
  {
    hide Desired;
  }

  lemma SpecRescale(c: Settings, s: State, a: Action, t: State)
    requires RescaleAction(c, s, a, t) && SpecInv(c, s)
    ensures SpecInv(c, t)
  {
    hide Desired, Stable, GoodSpec;
  }

  /** What the autoscaler decides from a spec in range is in range. */
  lemma DecisionInRange(c: Settings, s: State, a: Action, t: State)
    requires Valid(c) && a.DecideScaling? && DecideStep(c, s, a, t) && GoodSpec(c, s.scaler.snap)
    ensures t.scaler.Decided? && InRange(c, t.scaler.current)
    ensures t.scaler.op.nodeReplicas.Some? ==> InRange(c, t.scaler.op.nodeReplicas.value)
  {
    if a.first != [] {
      AutoscalerRuns.NodeTargetInRange(c, a.first, a.second, t.scaler.hint, t.scaler.current);
    }
    hide Decide, Hint, MaxDisk;
  }

  lemma SpecScaler(c: Settings, s: State, a: Action, t: State)
    requires Valid(c) && ScalerAction(c, s, a, t) && SpecInv(c, s)
    ensures SpecInv(c, t)
  {
    if a.DecideScaling? {
      DecisionInRange(c, s, a, t);
    }
    hide CalculateOperation, Hint, Desired, Decidable;
  }

  lemma SpecStep(c: Settings, s: State, a: Action, t: State)
    requires CrdMinima(c) && Valid(c) && Next(c, s, a, t) && SpecInv(c, s) && !a.EnvEdit?
    ensures SpecInv(c, t)
  {
    hide OperateAction, UpdateAction, RescaleAction, DrainAction, HookAction, ScalerAction, EnvAction, Valid,
         CrdMinima;
    if OperateAction(c, s, a, t) {
      SpecOperate(c, s, a, t);
    } else if UpdateAction(c, s, a, t) {
      UpdateFrames(c, s, a, t);
    } else if RescaleAction(c, s, a, t) {
      SpecRescale(c, s, a, t);
    } else if DrainAction(c, s, a, t) {
      DrainFrames(c, s, a, t);
    } else if HookAction(s, a, t) {
      SpecHook(c, s, a, t);
    } else if ScalerAction(c, s, a, t) {
      SpecScaler(c, s, a, t);
    } else {
      SpecEnv(c, s, a, t);
    }
  }

  lemma SpecHook(c: Settings, s: State, a: Action, t: State)
    requires HookAction(s, a, t) && SpecInv(c, s)
    ensures SpecInv(c, t)
  {
    HookFrames(s, a, t);
    hide HookAction;
  }

  lemma SpecEnv(c: Settings, s: State, a: Action, t: State)
    requires EnvAction(s, a, t) && SpecInv(c, s) && !a.EnvEdit?
    ensures SpecInv(c, t)
  {
    hide ReadyCount;
  }

  // ----- the size -----

  ghost predicate SizeInv(c: Settings, s: State) {
    && (s.sts.Some? ==> c.minReplicas <= s.sts.value.replicas <= c.maxReplicas + 1)
    && (s.loop.pc == PreHook ==> s.loop.cur.replicas.Some? && s.loop.sts.replicas > s.loop.cur.replicas.value)
    && (s.loop.pc in {Listing, ScaleDraining, SliceChecked} ==>
          && s.loop.cur.replicas.Some?
          && (s.loop.target == s.loop.cur.replicas.value > s.loop.sts.replicas
              || s.loop.target == s.loop.sts.replicas - 1 >= s.loop.cur.replicas.value))
  }

  /** What is needed of the other invariants to keep this one. */
  ghost predicate Supported(c: Settings, s: State) {
    && Valid(c) && SpecInv(c, s) && StsCopyCurrent(s) && ReadyInv(c, s) && HandoffInv(s)
  }

  lemma SizeOperate(c: Settings, s: State, a: Action, t: State)
    requires OperateAction(c, s, a, t) && Supported(c, s) && SizeInv(c, s)
    ensures SizeInv(c, t)
  {
    hide HandoffInv, ReadyInv;
  }

  lemma SizeUpdate(c: Settings, s: State, a: Action, t: State)
    requires UpdateAction(c, s, a, t) && Supported(c, s) && SizeInv(c, s)
    ensures SizeInv(c, t)
  {
    if a.Surge? {
      SizeSurge(c, s, t);
    } else {
      UpdateFrames(c, s, a, t);
      OnlySurgeSizes(c, s, a, t);
    }
    hide UpdateAction, Supported;
  }

  lemma SizeSurge(c: Settings, s: State, t: State)
    requires SurgeStep(s, t) && Supported(c, s) && SizeInv(c, s)
    ensures SizeInv(c, t)
  {
    hide HandoffInv;
  }

  lemma OnlySurgeSizes(c: Settings, s: State, a: Action, t: State)
    requires UpdateAction(c, s, a, t) && !a.Surge?
    ensures t.sts == s.sts
  {
    hide Prioritized, CacheShowsMarks, AllNumbered, Stable, Desired;
  }

  lemma SizeRescale(c: Settings, s: State, a: Action, t: State)
    requires RescaleAction(c, s, a, t) && Supported(c, s) && SizeInv(c, s)
    ensures SizeInv(c, t)
  {
    if a.Refresh? {
      SizeRefresh(c, s, t);
    } else {
      hide HandoffInv, ReadyInv, Stable, Desired, RefreshStep;
    }
  }

  lemma SizeRefresh(c: Settings, s: State, t: State)
    requires RefreshStep(c, s, t) && Supported(c, s) && SizeInv(c, s)
    ensures SizeInv(c, t)
  {
    hide HandoffInv, ReadyInv;
  }

  lemma SizeStep(c: Settings, s: State, a: Action, t: State)
    requires CrdMinima(c) && Next(c, s, a, t) && Supported(c, s) && SizeInv(c, s)
    ensures SizeInv(c, t)
  {
    hide OperateAction, UpdateAction, RescaleAction, DrainAction, HookAction, ScalerAction, EnvAction,
         HandoffInv, ReadyInv, SpecInv;
    if OperateAction(c, s, a, t) {
      SizeOperate(c, s, a, t);
    } else if UpdateAction(c, s, a, t) {
      SizeUpdate(c, s, a, t);
    } else if RescaleAction(c, s, a, t) {
      SizeRescale(c, s, a, t);
    } else if DrainAction(c, s, a, t) {
      DrainFrames(c, s, a, t);
    } else if HookAction(s, a, t) {
      SizeHook(c, s, a, t);
    } else if ScalerAction(c, s, a, t) {
      ScalerFrames(c, s, a, t);
    } else {
      EnvFrames(s, a, t);
    }
  }

  lemma SizeHook(c: Settings, s: State, a: Action, t: State)
    requires HookAction(s, a, t) && SizeInv(c, s)
    ensures SizeInv(c, t)
  {
  }

  // ----- enough nodes before index replicas are sent -----

  /** The older copy's operation never finds fewer nodes than it asks for once a rescale is done. */
  ghost predicate FloorInv(s: State) {
    var wanted := NodesWanted(s.loop.sr.pending);
    wanted.Some? ==>
      && (s.loop.pc in {Listing, ScaleDraining, SliceChecked} ==> s.loop.target >= wanted.value)
      && (s.loop.pc in {AwaitResize, AwaitStable, FinalHook} ==> s.loop.sts.replicas >= wanted.value)
  }

  lemma FloorUpdate(c: Settings, s: State, a: Action, t: State)
    requires UpdateAction(c, s, a, t) && Supported(c, s) && FloorInv(s)
    ensures FloorInv(t)
  {
    UpdateFrames(c, s, a, t);
    DeleteKeepsSts(c, s, a, t);
    hide UpdateAction;
    if t.loop.pc == FinalHook {
      assert Desired(c, s.loop.sr) == s.loop.sr.replicas;
    }
    hide HandoffInv, StsCopyCurrent, Desired;
  }

  lemma DeleteKeepsSts(c: Settings, s: State, a: Action, t: State)
    requires UpdateAction(c, s, a, t)
    ensures t.loop.pc == FinalHook ==> t.loop.sts == s.loop.sts
  {
    hide Prioritized, CacheShowsMarks, AllNumbered, Stable, Desired;
  }

  lemma FloorRescale(c: Settings, s: State, a: Action, t: State)
    requires RescaleAction(c, s, a, t) && Supported(c, s) && FloorInv(s) && SizeInv(c, s)
    ensures FloorInv(t)
  {
    hide CopiesInv, StoredInv, ProgressInv, DecrementInv, ReadyInv, Stable;
  }

  lemma FloorHook(c: Settings, s: State, a: Action, t: State)
    requires HookAction(s, a, t) && Supported(c, s) && FloorInv(s) && SizeInv(c, s)
    ensures FloorInv(t)
  {
    hide CopiesInv, StoredInv, ProgressInv, DecrementInv, ReadyInv;
  }

  lemma FloorStep(c: Settings, s: State, a: Action, t: State)
    requires CrdMinima(c) && Next(c, s, a, t) && Supported(c, s) && FloorInv(s) && SizeInv(c, s)
    ensures FloorInv(t)
  {
    hide OperateAction, UpdateAction, RescaleAction, DrainAction, HookAction, ScalerAction, EnvAction,
         HandoffInv, ReadyInv, SpecInv, SizeInv;
    if OperateAction(c, s, a, t) {
      OperateFrames(c, s, a, t);
    } else if UpdateAction(c, s, a, t) {
      FloorUpdate(c, s, a, t);
    } else if RescaleAction(c, s, a, t) {
      FloorRescale(c, s, a, t);
    } else if DrainAction(c, s, a, t) {
      DrainFrames(c, s, a, t);
    } else if HookAction(s, a, t) {
      FloorHook(c, s, a, t);
    } else if ScalerAction(c, s, a, t) {
      ScalerFrames(c, s, a, t);
    } else {
      EnvFrames(s, a, t);
    }
  }

  // ----- every run -----

  ghost predicate AllInv(c: Settings, s: State) {
    Supported(c, s) && SizeInv(c, s) && FloorInv(s)
  }

  /** A start in range: spec.replicas is set and an existing StatefulSet is not outside the range. */
  ghost predicate GoodStart(c: Settings, s: State) {
    && GoodSpec(c, s.eds)
    && (s.sts.Some? ==> c.minReplicas <= s.sts.value.replicas <= c.maxReplicas + 1)
  }

  lemma AllStep(c: Settings, s: State, a: Action, t: State)
    requires CrdMinima(c) && Next(c, s, a, t) && AllInv(c, s) && !a.EnvEdit?
    ensures AllInv(c, t)
  {
    SpecStep(c, s, a, t);
    StsCopyStep(c, s, a, t);
    ReadyStep(c, s, a, t);
    HandoffStep(c, s, a, t);
    SizeStep(c, s, a, t);
    FloorStep(c, s, a, t);
    hide Next, SpecInv, StsCopyCurrent, ReadyInv, HandoffInv, SizeInv, FloorInv, Valid;
  }

  lemma AllInitially(c: Settings, s: State)
    requires Valid(c) && Init(s) && GoodStart(c, s)
    ensures AllInv(c, s)
  {
    HandoffInitially(s);
    hide HandoffInv;
  }

  lemma {:induction false} AllAlways(c: Settings, run: seq<State>, actions: seq<Action>, i: nat)
    requires Valid(c) && Run(c, run, actions) && GoodStart(c, run[0]) && NoEdits(actions) && i < |run|
    ensures AllInv(c, run[i])
  {
    if i == 0 {
      AllInitially(c, run[0]);
    } else {
      AllAlways(c, run, actions, i - 1);
      hide Next, AllInv, Init, GoodStart, Valid;
      AllStep(c, run[i - 1], actions[i - 1], run[i]);
    }
  }

  /** Each way the StatefulSet's size may change in one step. */
  ghost predicate LegalSizeChange(s: State, a: Action, t: State) {
    || t.sts == s.sts
    || (s.sts.Some? && t.sts.Some? && t.sts.value.replicas == s.sts.value.replicas)
    // created at the desired count read for it
    || (s.sts.None? && t.sts.Some? && s.loop.sr.replicas == Some(t.sts.value.replicas))
    || (s.sts.Some? && t.sts.Some? &&
        var before, after := s.sts.value.replicas, t.sts.value.replicas;
        // one above the desired count, for the rolling update
        || (a.Surge? && s.loop.sr.replicas == Some(before) && after == before + 1)
        // straight up to the desired count read for this rescale
        || (a.Resize? && before < after && s.loop.cur.replicas == Some(after))
        // down by exactly one, never below the desired count read for this rescale
        || (a.Resize? && after == before - 1 && s.loop.cur.replicas.Some? && after >= s.loop.cur.replicas.value))
  }

  lemma SizeChanges(c: Settings, s: State, a: Action, t: State)
    requires CrdMinima(c) && Next(c, s, a, t) && AllInv(c, s)
    ensures LegalSizeChange(s, a, t)
  {
    hide OperateAction, UpdateAction, RescaleAction, DrainAction, HookAction, ScalerAction, EnvAction,
         HandoffInv, FloorInv;
    if OperateAction(c, s, a, t) {
      SizeChangeOperate(c, s, a, t);
    } else if UpdateAction(c, s, a, t) {
      SizeChangeUpdate(c, s, a, t);
    } else if RescaleAction(c, s, a, t) {
      SizeChangeRescale(c, s, a, t);
    } else if DrainAction(c, s, a, t) {
      DrainFrames(c, s, a, t);
    } else if HookAction(s, a, t) {
      HookFrames(s, a, t);
    } else if ScalerAction(c, s, a, t) {
      ScalerFrames(c, s, a, t);
    } else {
      EnvFrames(s, a, t);
    }
  }

  lemma SizeChangeOperate(c: Settings, s: State, a: Action, t: State)
    requires OperateAction(c, s, a, t) && AllInv(c, s)
    ensures LegalSizeChange(s, a, t)
  {
    hide HandoffInv, FloorInv, SizeInv, ReadyInv;
  }

  lemma SizeChangeUpdate(c: Settings, s: State, a: Action, t: State)
    requires UpdateAction(c, s, a, t) && AllInv(c, s)
    ensures LegalSizeChange(s, a, t)
  {
    hide HandoffInv, FloorInv, SizeInv, Prioritized, CacheShowsMarks, AllNumbered, Stable;
  }

  lemma SizeChangeRescale(c: Settings, s: State, a: Action, t: State)
    requires RescaleAction(c, s, a, t) && AllInv(c, s)
    ensures LegalSizeChange(s, a, t)
  {
    RescaleFrames(c, s, a, t);
    if a.Resize? {
      assert ResizeStep(s, t);
    }
    hide RescaleAction, HandoffInv, FloorInv, ReadyInv;
  }

  /**
    Main result. With valid settings, spec.replicas set in range and written only by the
    autoscaler, every interleaving of the two loops, with failed calls and restarts, keeps the
    StatefulSet between minReplicas and maxReplicas + 1 and changes its size only in the ways
    listed in LegalSizeChange.
  */
  lemma SizeIsBounded(c: Settings, run: seq<State>, actions: seq<Action>, i: nat)
    requires Valid(c) && Run(c, run, actions) && GoodStart(c, run[0]) && NoEdits(actions) && i < |actions|
    ensures run[i].sts.Some? ==> c.minReplicas <= run[i].sts.value.replicas <= c.maxReplicas + 1
    ensures run[i + 1].sts.Some? ==> c.minReplicas <= run[i + 1].sts.value.replicas <= c.maxReplicas + 1
    ensures LegalSizeChange(run[i], actions[i], run[i + 1])
  {
    AllAlways(c, run, actions, i);
    AllAlways(c, run, actions, i + 1);
    assert Next(c, run[i], actions[i], run[i + 1]);
    SizeChanges(c, run[i], actions[i], run[i + 1]);
    hide Next, Supported, FloorInv, LegalSizeChange, Init, GoodStart, Valid;
  }

  /**
    Main result. Index replicas of an operation that also asks for a node count are sent only
    while the StatefulSet is at least that large. For an UP operation: after the scale-out. For
    a DOWN operation: before the StatefulSet has shrunk below its count; HandoffIsSafe says that
    even the first step down towards it waits for them.
  */
  lemma IndicesFollowNodes(c: Settings, run: seq<State>, actions: seq<Action>, i: nat)
    requires Valid(c) && Run(c, run, actions) && GoodStart(c, run[0]) && NoEdits(actions) && i < |actions|
    requires actions[i].SendIndex?
    ensures HookOperation(run[i].loop).Some? && run[i].sts.Some?
    ensures NodesWanted(HookOperation(run[i].loop)).Some? ==>
              run[i].sts.value.replicas >= NodesWanted(HookOperation(run[i].loop)).value
  {
    AllAlways(c, run, actions, i);
    var s, t := run[i], run[i + 1];
    assert Next(c, s, actions[i], t);
    hide Run, Init, GoodStart, NoEdits, HandoffInv, ReadyInv, Valid;
    SendNeedsNodes(c, s, t);
  }

  lemma SendNeedsNodes(c: Settings, s: State, t: State)
    requires SendIndexStep(s, t) && AllInv(c, s)
    ensures s.sts.Some?
    ensures NodesWanted(HookOperation(s.loop)).Some? ==>
              s.sts.value.replicas >= NodesWanted(HookOperation(s.loop)).value
  {
    hide HandoffInv, ReadyInv;
  }
}
