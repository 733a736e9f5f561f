/** Cool-down of the autoscaler over whole runs. */
module Cooldown {
  import opened Base
  import opened Autoscaler
  import opened Metrics
  import opened ControlLoop
  import opened HandoffSafety

  /** Recorded times lie in the past, and a decision under a hint was made with its cool-down over. */
  ghost predicate CooldownInv(c: Settings, s: State) {
    && (s.eds.lastUp.Some? ==> s.eds.lastUp.value <= s.now)
    && (s.eds.lastDown.Some? ==> s.eds.lastDown.value <= s.now)
    && (s.scaler.Decided? ==>
          && (s.scaler.hint == UP ==> CooledDown(s.scaler.snap.lastUp, s.now, c.scaleUpCooldown))
          && (s.scaler.hint == DOWN ==> CooledDown(s.scaler.snap.lastDown, s.now, c.scaleDownCooldown)))
  }

  lemma CooldownElsewhere(c: Settings, s: State, a: Action, t: State)
    requires CrdMinima(c) && CooldownInv(c, s)
    requires UpdateAction(c, s, a, t) || RescaleAction(c, s, a, t) || DrainAction(c, s, a, t) || HookAction(s, a, t)
    ensures CooldownInv(c, t) && LaterTimes(s, t)
  {
    hide UpdateAction, RescaleAction, DrainAction, HookAction;
    if UpdateAction(c, s, a, t) {
      UpdateFrames(c, s, a, t);
    } else if RescaleAction(c, s, a, t) {
      RescaleFrames(c, s, a, t);
    } else if DrainAction(c, s, a, t) {
      DrainFrames(c, s, a, t);
    } else {
      HookFrames(s, a, t);
    }
  }

  lemma CooldownStep(c: Settings, s: State, a: Action, t: State)
    requires CrdMinima(c) && Next(c, s, a, t) && CooldownInv(c, s) && CopiesInv(s)
    ensures CooldownInv(c, t) && LaterTimes(s, t)
  {
    hide OperateAction, UpdateAction, RescaleAction, DrainAction, HookAction, ScalerAction, EnvAction, CopiesInv,
         CooldownInv, LaterTimes;
    if OperateAction(c, s, a, t) {
      TimesOperate(c, s, a, t);
    } else if ScalerAction(c, s, a, t) {
      TimesScaler(c, s, a, t);
    } else if EnvAction(s, a, t) {
      TimesEnv(c, s, a, t);
    } else {
      CooldownElsewhere(c, s, a, t);
    }
  }

  /** The clock does not run back, and neither do the recorded times. */
  ghost predicate LaterTimes(s: State, t: State) {
    && s.now <= t.now
    && NotEarlier(s.eds.lastUp, t.eds.lastUp) && NotEarlier(s.eds.lastDown, t.eds.lastDown)
  }

  predicate NotEarlier(before: Option<int>, after: Option<int>) {
    before.Some? ==> after.Some? && before.value <= after.value
  }

  lemma TimesOperate(c: Settings, s: State, a: Action, t: State)
    requires OperateAction(c, s, a, t) && CopiesInv(s) && CooldownInv(c, s)
    ensures CooldownInv(c, t) && LaterTimes(s, t)
  {
    hide Desired;
  }

  lemma TimesScaler(c: Settings, s: State, a: Action, t: State)
    requires CrdMinima(c) && ScalerAction(c, s, a, t) && CooldownInv(c, s)
    ensures CooldownInv(c, t) && LaterTimes(s, t)
  {
    hide CalculateOperation, DownRequired, UpRequired, Desired, Decidable;
  }

  lemma TimesEnv(c: Settings, s: State, a: Action, t: State)
    requires EnvAction(s, a, t) && CooldownInv(c, s)
    ensures CooldownInv(c, t) && LaterTimes(s, t)
  {
    hide ReadyCount, NoNewMarks;
  }

  /** A step that records a change of the node count. */
  ghost predicate RecordsIncrease(s: State, a: Action) {
    && a.RecordScaling? && s.scaler.Decided?
    && s.scaler.op.nodeReplicas.Some? && s.scaler.op.nodeReplicas.value > s.scaler.current
  }

  ghost predicate RecordsDecrease(s: State, a: Action) {
    && a.RecordScaling? && s.scaler.Decided?
    && s.scaler.op.nodeReplicas.Some? && s.scaler.op.nodeReplicas.value < s.scaler.current
  }

  ghost predicate RecordsChange(s: State, a: Action) {
    RecordsIncrease(s, a) || RecordsDecrease(s, a)
  }

  ghost predicate PastTimes(s: State) {
    && (s.eds.lastUp.Some? ==> s.eds.lastUp.value <= s.now)
    && (s.eds.lastDown.Some? ==> s.eds.lastDown.value <= s.now)
  }

  lemma {:induction false} CooldownAlways(c: Settings, run: seq<State>, actions: seq<Action>, i: nat)
    requires CrdMinima(c) && Run(c, run, actions) && PastTimes(run[0]) && i < |run|
    ensures CooldownInv(c, run[i])
  {
    if i > 0 {
      CooldownAlways(c, run, actions, i - 1);
      HandoffAlways(c, run, actions, i - 1);
      hide Next, CooldownInv, Init, CopiesInv, StoredInv, HookCopiesInv, ProgressInv, DecrementInv;
      CooldownStep(c, run[i - 1], actions[i - 1], run[i]);
    }
  }

  lemma TimesAdvanceOnce(c: Settings, run: seq<State>, actions: seq<Action>, i: nat)
    requires CrdMinima(c) && Run(c, run, actions) && PastTimes(run[0]) && i < |actions|
    ensures LaterTimes(run[i], run[i + 1])
  {
    CooldownAlways(c, run, actions, i);
    HandoffAlways(c, run, actions, i);
    hide Next, CooldownInv, Init, CopiesInv, StoredInv, HookCopiesInv, ProgressInv, DecrementInv, LaterTimes;
    CooldownStep(c, run[i], actions[i], run[i + 1]);
  }

  lemma {:induction false} TimesAdvance(c: Settings, run: seq<State>, actions: seq<Action>, j: nat, i: nat)
    requires CrdMinima(c) && Run(c, run, actions) && PastTimes(run[0]) && j <= i < |run|
    ensures LaterTimes(run[j], run[i])
    decreases i
  {
    if j < i {
      TimesAdvanceOnce(c, run, actions, i - 1);
      TimesAdvance(c, run, actions, j, i - 1);
    }
    hide Run;
  }

  /** Recording a change stamps it, after checking under a hint that the last stamp is old enough. */
  lemma RecordStamps(c: Settings, s: State, a: Action, t: State)
    requires CrdMinima(c) && Next(c, s, a, t) && CooldownInv(c, s) && CopiesInv(s)
    ensures RecordsIncrease(s, a) ==> t.eds.lastUp == Some(s.now)
    ensures RecordsDecrease(s, a) ==> t.eds.lastDown == Some(s.now)
    ensures RecordsChange(s, a) && s.scaler.hint == UP ==> CooledDown(s.eds.lastUp, s.now, c.scaleUpCooldown)
    ensures RecordsChange(s, a) && s.scaler.hint == DOWN ==> CooledDown(s.eds.lastDown, s.now, c.scaleDownCooldown)
  {
    if a.RecordScaling? {
      assert RecordStep(s, t);
    }
    hide Next;
  }

  /**
    Main result. In every run, a change of the node count recorded under the UP hint, whichever way
    it goes, comes more than the cool-down after every node increase recorded earlier, whatever
    caused that one; and the same for the DOWN hint and decreases. Changes forced by the shard limit
    or the replica bounds without that hint are not held back, but they do start a cool-down.
  */
  lemma CooldownIsRespected(c: Settings, run: seq<State>, actions: seq<Action>, j: nat, i: nat)
    requires CrdMinima(c) && Run(c, run, actions) && PastTimes(run[0]) && j < i < |actions|
    requires RecordsChange(run[i], actions[i])
    ensures RecordsIncrease(run[j], actions[j]) && run[i].scaler.hint == UP ==>
              run[i].now > run[j].now + c.scaleUpCooldown
    ensures RecordsDecrease(run[j], actions[j]) && run[i].scaler.hint == DOWN ==>
              run[i].now > run[j].now + c.scaleDownCooldown
  {
    ChangeWaits(c, run, actions, j + 1, i);
    CooldownAlways(c, run, actions, j);
    HandoffAlways(c, run, actions, j);
    hide Next, CooldownInv, Init, CopiesInv, StoredInv, HookCopiesInv, ProgressInv, DecrementInv;
    RecordStamps(c, run[j], actions[j], run[j + 1]);
    hide RecordsIncrease, RecordsDecrease;
  }

  /** A change under a hint waits for the times recorded at any earlier point, the start included. */
  lemma ChangeWaits(c: Settings, run: seq<State>, actions: seq<Action>, j: nat, i: nat)
    requires CrdMinima(c) && Run(c, run, actions) && PastTimes(run[0]) && j <= i < |actions|
    requires RecordsChange(run[i], actions[i])
    ensures run[i].scaler.hint == UP ==> CooledDown(run[j].eds.lastUp, run[i].now, c.scaleUpCooldown)
    ensures run[i].scaler.hint == DOWN ==> CooledDown(run[j].eds.lastDown, run[i].now, c.scaleDownCooldown)
  {
    CooldownAlways(c, run, actions, i);
    HandoffAlways(c, run, actions, i);
    TimesAdvance(c, run, actions, j, i);
    hide Next, CooldownInv, Init, CopiesInv, StoredInv, HookCopiesInv, ProgressInv, DecrementInv, RecordsChange;
    RecordStamps(c, run[i], actions[i], run[i + 1]);
  }
}
