/**
  The loop's copy of the StatefulSet is current, and a rolling update leaves enough ready Pods.
*/
module RolloutSafety {
  import opened Base
  import opened Autoscaler
  import opened Pods
  import opened ControlLoop

  // ----- the loop is the only writer of the StatefulSet -----

  /** Program points that hold a StatefulSet copy. */
  predicate HoldsSts(pc: Pc) {
    pc !in {Idle, Started, Preparing}
  }

  ghost predicate StsCopyCurrent(s: State) {
    HoldsSts(s.loop.pc) ==> s.sts.Some? && s.loop.sts.replicas == s.sts.value.replicas
  }

  lemma StsCopyOperate(c: Settings, s: State, a: Action, t: State)
    requires OperateAction(c, s, a, t) && StsCopyCurrent(s)
    ensures StsCopyCurrent(t)
  {
    hide Desired;
  }

  lemma StsCopyUpdate(c: Settings, s: State, a: Action, t: State)
    requires UpdateAction(c, s, a, t) && StsCopyCurrent(s)
    ensures StsCopyCurrent(t)
  {
    hide Prioritized, CacheShowsMarks, AllNumbered, Desired;
  }

  lemma StsCopyRescale(c: Settings, s: State, a: Action, t: State)
    requires RescaleAction(c, s, a, t) && StsCopyCurrent(s)
    ensures StsCopyCurrent(t)
  {
  }

  lemma StsCopyElsewhere(c: Settings, s: State, a: Action, t: State)
    requires CrdMinima(c) && StsCopyCurrent(s)
    requires DrainAction(c, s, a, t) || HookAction(s, a, t) || ScalerAction(c, s, a, t) || EnvAction(s, a, t)
    ensures StsCopyCurrent(t)
  {
    hide DrainAction, HookAction, ScalerAction, EnvAction;
    if DrainAction(c, s, a, t) {
      DrainFrames(c, s, a, t);
    } else if HookAction(s, a, t) {
      HookFrames(s, a, t);
    } else if ScalerAction(c, s, a, t) {
      ScalerFrames(c, s, a, t);
    } else {
      EnvFrames(s, a, t);
    }
  }

  lemma StsCopyStep(c: Settings, s: State, a: Action, t: State)
    requires CrdMinima(c) && Next(c, s, a, t) && StsCopyCurrent(s)
    ensures StsCopyCurrent(t)
  {
    hide OperateAction, UpdateAction, RescaleAction, DrainAction, HookAction, ScalerAction, EnvAction, StsCopyCurrent;
    if OperateAction(c, s, a, t) {
      StsCopyOperate(c, s, a, t);
    } else if UpdateAction(c, s, a, t) {
      StsCopyUpdate(c, s, a, t);
    } else if RescaleAction(c, s, a, t) {
      StsCopyRescale(c, s, a, t);
    } else {
      StsCopyElsewhere(c, s, a, t);
    }
  }

  // ----- the rolling update leaves enough ready Pods -----

  ghost predicate ReadyInv(c: Settings, s: State) {
    var desired := Desired(c, s.loop.sr);
    && (s.loop.pc == Selecting && desired.Some? ==> s.loop.sts.replicas >= desired.value)
    && (s.loop.pc == Surging ==> desired == Some(s.loop.sts.replicas))
    && (s.loop.pc in {AwaitSurge, Marking, DrainingPod, Deleting} && desired.Some? ==>
          s.loop.sts.replicas >= desired.value + 1)
    && (s.loop.pc in {Marking, DrainingPod, Deleting} ==>
          ReadyCount(s.pods) + s.losses >= s.loop.sts.replicas)
  }

  lemma ReadyOperate(c: Settings, s: State, a: Action, t: State)
    requires OperateAction(c, s, a, t) && ReadyInv(c, s) && StsCopyCurrent(s)
    ensures ReadyInv(c, t)
  {
    hide Desired, ReadyCount;
  }

  lemma ReadyMark(c: Settings, s: State, t: State)
    requires MarkStep(s, t) && ReadyInv(c, s)
    ensures ReadyInv(c, t)
  {
    assert ReadyPods(t.pods) == ReadyPods(s.pods);
    hide Desired, ReadyPods;
  }

  lemma ReadyUpdate(c: Settings, s: State, a: Action, t: State)
    requires UpdateAction(c, s, a, t) && ReadyInv(c, s) && StsCopyCurrent(s)
    ensures ReadyInv(c, t)
  {
    hide Prioritized, CacheShowsMarks, AllNumbered, ReadyPods, Desired;
    if a.Mark? {
      ReadyMark(c, s, t);
    }
  }

  lemma ReadyEnv(c: Settings, s: State, a: Action, t: State)
    requires EnvAction(s, a, t) && ReadyInv(c, s)
    ensures ReadyInv(c, t)
  {
  }

  lemma ReadyStep(c: Settings, s: State, a: Action, t: State)
    requires CrdMinima(c) && Next(c, s, a, t) && ReadyInv(c, s) && StsCopyCurrent(s)
    ensures ReadyInv(c, t)
  {
    hide OperateAction, UpdateAction, RescaleAction, DrainAction, HookAction, ScalerAction, EnvAction;
    if OperateAction(c, s, a, t) {
      ReadyOperate(c, s, a, t);
    } else if UpdateAction(c, s, a, t) {
      ReadyUpdate(c, s, a, t);
    } else if RescaleAction(c, s, a, t) {
      RescaleFrames(c, s, a, t);
    } else if DrainAction(c, s, a, t) {
      DrainFrames(c, s, a, t);
    } else if HookAction(s, a, t) {
      HookFrames(s, a, t);
    } else if ScalerAction(c, s, a, t) {
      ScalerFrames(c, s, a, t);
    } else {
      ReadyEnv(c, s, a, t);
    }
  }

  /** A delete removes at most one ready Pod, so at least desired remain, less those lost to others. */
  lemma DeleteLeavesEnoughReady(c: Settings, s: State, t: State)
    requires DeleteStep(s, t) && ReadyInv(c, s) && Desired(c, s.loop.sr).Some?
    ensures ReadyCount(t.pods) + t.losses >= Desired(c, s.loop.sr).value
    ensures s.loop.sts.replicas >= Desired(c, s.loop.sr).value + 1
  {
    var o := s.loop.pod.value.ordinal.value;
    assert ReadyPods(t.pods) == ReadyPods(s.pods) - {o};
  }

  // ----- every run -----

  ghost predicate RolloutInv(c: Settings, s: State) {
    StsCopyCurrent(s) && ReadyInv(c, s)
  }

  lemma {:induction false} RolloutAlways(c: Settings, run: seq<State>, actions: seq<Action>, i: nat)
    requires CrdMinima(c) && Run(c, run, actions) && i < |run|
    ensures RolloutInv(c, run[i])
  {
    if i > 0 {
      RolloutAlways(c, run, actions, i - 1);
      hide Next, StsCopyCurrent, ReadyInv, Init;
      StsCopyStep(c, run[i - 1], actions[i - 1], run[i]);
      ReadyStep(c, run[i - 1], actions[i - 1], run[i]);
    }
  }

  /**
    Main result. In every run, when desired replicas were set as the cycle began, the rolling
    update deletes a Pod only while the StatefulSet is above them, and what it leaves ready,
    together with the ready Pods lost to others since the stability check, is at least desired.
  */
  lemma RollingUpdateKeepsDesiredReady(c: Settings, run: seq<State>, actions: seq<Action>, i: nat)
    requires CrdMinima(c) && Run(c, run, actions) && i < |actions| && actions[i].Delete?
    requires Desired(c, run[i].loop.sr).Some?
    ensures run[i].sts.Some? && run[i].sts.value.replicas >= Desired(c, run[i].loop.sr).value + 1
    ensures ReadyCount(run[i + 1].pods) + run[i + 1].losses >= Desired(c, run[i].loop.sr).value
  {
    RolloutAlways(c, run, actions, i);
    assert Next(c, run[i], actions[i], run[i + 1]);
    hide Run;
    DeleteLeavesEnoughReady(c, run[i], run[i + 1]);
  }
}
