/**
  The hand-off of scaling operations through the annotation: what both loops keep under
  every interleaving, with failed calls and restarts.
*/
module HandoffSafety {
  import opened Base
  import opened Autoscaler
  import opened Metrics
  import opened ControlLoop

  // ----- copies of the EDS -----

  /** A copy read earlier: a compare-and-set that succeeds on it started from the stored object. */
  ghost predicate CopyOf(copy: Eds, stored: Eds) {
    copy.version <= stored.version && (copy.version == stored.version ==> copy == stored)
  }

  predicate HoldsCur(pc: Pc) {
    pc != Idle
  }

  predicate HoldsSr(pc: Pc) {
    pc !in {Idle, Started, Preparing, Reconciled, Reported}
  }

  ghost predicate CopiesInv(s: State) {
    && (HoldsCur(s.loop.pc) ==> CopyOf(s.loop.cur, s.eds))
    && (HoldsSr(s.loop.pc) ==> CopyOf(s.loop.sr, s.eds))
    && (s.scaler.Listed? ==> CopyOf(s.scaler.snap, s.eds))
    && (s.scaler.Decided? ==> CopyOf(s.scaler.snap, s.eds) && NothingPending(s.scaler.snap))
    && (s.scaler.Recorded? ==>
          s.scaler.version <= s.eds.version && (s.scaler.version == s.eds.version ==> NothingPending(s.eds)))
  }

  predicate NothingPending(e: Eds) {
    e.pending.None? || e.pending.value.operation.direction == NONE
  }

  lemma CopiesOperate(c: Settings, s: State, a: Action, t: State)
    requires OperateAction(c, s, a, t) && CopiesInv(s)
    ensures CopiesInv(t)
  {
    hide Desired;
  }

  lemma CopiesUpdate(c: Settings, s: State, a: Action, t: State)
    requires UpdateAction(c, s, a, t) && CopiesInv(s)
    ensures CopiesInv(t)
  {
    UpdateFrames(c, s, a, t);
    hide UpdateAction;
  }

  lemma CopiesRescale(c: Settings, s: State, a: Action, t: State)
    requires RescaleAction(c, s, a, t) && CopiesInv(s)
    ensures CopiesInv(t)
  {
    RescaleFrames(c, s, a, t);
    hide Desired, Stable;
  }

  lemma CopiesScaler(c: Settings, s: State, a: Action, t: State)
    requires CrdMinima(c) && ScalerAction(c, s, a, t) && CopiesInv(s)
    ensures CopiesInv(t)
  {
    hide CalculateOperation, Hint, Desired, Decidable;
  }

  lemma CopiesElsewhere(c: Settings, s: State, a: Action, t: State)
    requires DrainAction(c, s, a, t) || HookAction(s, a, t) || EnvAction(s, a, t)
    requires CopiesInv(s)
    ensures CopiesInv(t)
  {
    hide DrainAction, HookAction, EnvAction;
    if DrainAction(c, s, a, t) {
      DrainFrames(c, s, a, t);
    } else if HookAction(s, a, t) {
      HookFrames(s, a, t);
    } else {
      EnvFrames(s, a, t);
    }
  }

  lemma CopiesStep(c: Settings, s: State, a: Action, t: State)
    requires CrdMinima(c) && Next(c, s, a, t) && CopiesInv(s)
    ensures CopiesInv(t)
  {
    hide OperateAction, UpdateAction, RescaleAction, DrainAction, HookAction, ScalerAction, EnvAction, CopiesInv;
    if OperateAction(c, s, a, t) {
      CopiesOperate(c, s, a, t);
    } else if UpdateAction(c, s, a, t) {
      CopiesUpdate(c, s, a, t);
    } else if RescaleAction(c, s, a, t) {
      CopiesRescale(c, s, a, t);
    } else if ScalerAction(c, s, a, t) {
      CopiesScaler(c, s, a, t);
    } else {
      CopiesElsewhere(c, s, a, t);
    }
  }

  // ----- operations in the annotation -----

  /** All index replicas of an operation were accepted, or a deleted index ended its sending. */
  ghost predicate Done(s: State, id: nat)
    requires id < |s.written|
  {
    id in s.missing || forall k :: 0 <= k < |s.written[id].indexReplicas| ==> (id, k) in s.accepted
  }

  /** What any copy of the EDS may hold in its annotation. */
  ghost predicate FromHistory(s: State, pending: Option<Pending>) {
    pending.Some? ==>
      && pending.value.id < |s.written|
      && pending.value.operation == s.written[pending.value.id]
      && pending.value.operation.direction != NONE
  }

  /** The history only grows. */
  ghost predicate HistoryGrows(s: State, t: State) {
    s.accepted <= t.accepted && s.missing <= t.missing && s.written <= t.written
  }

  lemma DoneStays(s: State, t: State, id: nat)
    requires HistoryGrows(s, t) && id < |s.written| && Done(s, id)
    ensures Done(t, id)
  {
  }

  /** The stored annotation is the operation written last, and every other one is done. */
  ghost predicate StoredInv(s: State) {
    && FromHistory(s, s.eds.pending)
    && (s.eds.pending.Some? ==> s.eds.pending.value.id == |s.written| - 1)
    && (forall id :: 0 <= id < |s.written| && !IsPending(s.eds.pending, id) ==> Done(s, id))
    && s.newest < |s.written|
  }

  predicate IsPending(pending: Option<Pending>, id: nat) {
    pending.Some? && pending.value.id == id
  }

  /** The copies the hooks act on: none is older than what was last sent. */
  ghost predicate HookCopiesInv(s: State) {
    && (HoldsCur(s.loop.pc) ==> FromHistory(s, s.loop.cur.pending))
    && (HoldsSr(s.loop.pc) ==> FromHistory(s, s.loop.sr.pending))
    && (HoldsSr(s.loop.pc) && s.loop.sr.pending.Some? ==> s.newest <= s.loop.sr.pending.value.id)
    && (s.loop.pc in {Selecting, Rescaling} && s.loop.sr.pending.Some? ==> s.eds.pending == s.loop.sr.pending)
    && (s.loop.pc == PreHook && s.loop.sr.pending.Some? ==> s.loop.cur.pending == s.loop.sr.pending)
    && (s.loop.pc == PreHook && s.loop.cur.pending.Some? ==> s.newest <= s.loop.cur.pending.value.id)
  }

  /** What a hook in progress has sent. */
  ghost predicate ProgressInv(s: State) {
    InHook(s.loop) && HookOperation(s.loop).Some? ==>
      var p := HookOperation(s.loop).value;
      && s.loop.sent <= |p.operation.indexReplicas|
      && (p.id in s.missing || forall k :: 0 <= k < s.loop.sent ==> (p.id, k) in s.accepted)
  }

  /** A decrement comes after every operation known when it was decided. */
  ghost predicate DecrementInv(s: State) {
    && s.loop.known <= |s.written|
    && (s.loop.pc == PreHook ==>
          forall id :: 0 <= id < s.loop.known && !IsPending(s.loop.cur.pending, id) ==> Done(s, id))
    && (s.loop.pc in {Listing, ScaleDraining, SliceChecked} && s.loop.target < s.loop.sts.replicas ==>
          forall id :: 0 <= id < s.loop.known ==> Done(s, id))
  }

  ghost predicate HandoffInv(s: State) {
    CopiesInv(s) && StoredInv(s) && HookCopiesInv(s) && ProgressInv(s) && DecrementInv(s)
  }

  // ----- the shared facts about one step -----

  /** Everything the invariants need to know about a step that is neither a hook nor the autoscaler. */
  ghost predicate QuietStep(s: State, t: State) {
    && t.written == s.written && t.accepted == s.accepted && t.missing == s.missing && t.newest == s.newest
    && t.eds.pending == s.eds.pending
  }

  lemma QuietSteps(c: Settings, s: State, a: Action, t: State)
    requires CrdMinima(c) && Next(c, s, a, t) && !HookAction(s, a, t) && !ScalerAction(c, s, a, t)
    ensures QuietStep(s, t)
  {
    hide OperateAction, UpdateAction, RescaleAction, DrainAction, HookAction, ScalerAction, EnvAction;
    if OperateAction(c, s, a, t) {
      OperateFrames(c, s, a, t);
    } else if UpdateAction(c, s, a, t) {
      UpdateFrames(c, s, a, t);
    } else if RescaleAction(c, s, a, t) {
      RescaleFrames(c, s, a, t);
    } else if DrainAction(c, s, a, t) {
      DrainFrames(c, s, a, t);
    } else {
      EnvFrames(s, a, t);
    }
  }

  // ----- StoredInv -----

  lemma DoneAlike(s: State, t: State)
    requires t.written == s.written && t.accepted == s.accepted && t.missing == s.missing
    ensures forall id :: 0 <= id < |s.written| ==> (Done(s, id) <==> Done(t, id))
    ensures forall p :: FromHistory(s, p) <==> FromHistory(t, p)
  {
  }

  /** Sending adds to the history; removing the annotation needs the operation to be done. */
  lemma StoredHook(s: State, a: Action, t: State)
    requires HookAction(s, a, t) && HandoffInv(s)
    ensures StoredInv(t)
  {
    HookFrames(s, a, t);
    forall id | 0 <= id < |s.written| && Done(s, id) ensures Done(t, id) {
      HookGrows(s, a, t);
      DoneStays(s, t, id);
    }
    if a.RemoveAnnotation? {
      RemovedIsDone(s, t);
    }
  }

  lemma HookGrows(s: State, a: Action, t: State)
    requires HookAction(s, a, t)
    ensures HistoryGrows(s, t)
  {
  }

  lemma RemovedIsDone(s: State, t: State)
    requires RemoveAnnotationStep(s, t) && HandoffInv(s)
    ensures s.eds.pending == HookOperation(s.loop)
    ensures Done(s, s.eds.pending.value.id)
  {
  }

  lemma StoredScaler(c: Settings, s: State, a: Action, t: State)
    requires CrdMinima(c) && ScalerAction(c, s, a, t) && StoredInv(s) && CopiesInv(s)
    ensures StoredInv(t)
  {
    hide CalculateOperation, Hint, Desired, Decidable;
    forall id | 0 <= id < |s.written| && Done(s, id) ensures Done(t, id) {
      DoneStays(s, t, id);
    }
  }

  lemma StoredStep(c: Settings, s: State, a: Action, t: State)
    requires CrdMinima(c) && Next(c, s, a, t) && HandoffInv(s)
    ensures StoredInv(t)
  {
    hide Next, HookAction, ScalerAction;
    if HookAction(s, a, t) {
      StoredHook(s, a, t);
    } else if ScalerAction(c, s, a, t) {
      StoredScaler(c, s, a, t);
    } else {
      QuietSteps(c, s, a, t);
      DoneAlike(s, t);
    }
  }

  // ----- HookCopiesInv -----

  lemma HookCopiesOperate(c: Settings, s: State, a: Action, t: State)
    requires OperateAction(c, s, a, t) && HookCopiesInv(s) && StoredInv(s)
    ensures HookCopiesInv(t)
  {
    OperateFrames(c, s, a, t);
    DoneAlike(s, t);
    hide Desired, Done, FromHistory;
  }

  lemma HookCopiesRescale(c: Settings, s: State, a: Action, t: State)
    requires RescaleAction(c, s, a, t) && HookCopiesInv(s) && StoredInv(s)
    ensures HookCopiesInv(t)
  {
    RescaleFrames(c, s, a, t);
    DoneAlike(s, t);
    hide Desired, Done, Stable, FromHistory;
  }

  lemma HookCopiesHook(s: State, a: Action, t: State)
    requires HookAction(s, a, t) && HookCopiesInv(s)
    ensures HookCopiesInv(t)
  {
  }

  lemma HookCopiesScaler(c: Settings, s: State, a: Action, t: State)
    requires CrdMinima(c) && ScalerAction(c, s, a, t) && HandoffInv(s)
    ensures HookCopiesInv(t)
  {
    ScalerFrames(c, s, a, t);
    PublishNeedsNothingPending(c, s, a, t);
    hide ScalerAction, Done;
  }

  lemma PublishNeedsNothingPending(c: Settings, s: State, a: Action, t: State)
    requires CrdMinima(c) && ScalerAction(c, s, a, t) && CopiesInv(s) && StoredInv(s)
    ensures s.written <= t.written
    ensures t.eds.pending == s.eds.pending || s.eds.pending.None?
    ensures t.written == s.written || s.eds.pending.None?
  {
    hide CalculateOperation, Hint, Desired, Decidable, Done;
  }

  lemma HookCopiesStep(c: Settings, s: State, a: Action, t: State)
    requires CrdMinima(c) && Next(c, s, a, t) && HandoffInv(s)
    ensures HookCopiesInv(t)
  {
    hide OperateAction, UpdateAction, RescaleAction, DrainAction, HookAction, ScalerAction, EnvAction, Done,
         FromHistory, StoredInv, ProgressInv, DecrementInv, CopiesInv;
    if HookAction(s, a, t) {
      HookCopiesHook(s, a, t);
    } else if ScalerAction(c, s, a, t) {
      HookCopiesScaler(c, s, a, t);
    } else {
      QuietSteps(c, s, a, t);
      DoneAlike(s, t);
      HookCopiesQuiet(c, s, a, t);
    }
  }

  lemma HookCopiesQuiet(c: Settings, s: State, a: Action, t: State)
    requires CrdMinima(c) && Next(c, s, a, t) && HookCopiesInv(s) && StoredInv(s)
    requires !HookAction(s, a, t) && !ScalerAction(c, s, a, t)
    ensures HookCopiesInv(t)
  {
    hide OperateAction, UpdateAction, RescaleAction, DrainAction, HookAction, ScalerAction, EnvAction, Done,
         FromHistory, StoredInv;
    QuietSteps(c, s, a, t);
    DoneAlike(s, t);
    if OperateAction(c, s, a, t) {
      HookCopiesOperate(c, s, a, t);
    } else if UpdateAction(c, s, a, t) {
      UpdateFrames(c, s, a, t);
    } else if RescaleAction(c, s, a, t) {
      HookCopiesRescale(c, s, a, t);
    } else if DrainAction(c, s, a, t) {
      DrainFrames(c, s, a, t);
    } else {
      EnvFrames(s, a, t);
    }
  }

  // ----- ProgressInv -----

  lemma ProgressRescale(c: Settings, s: State, a: Action, t: State)
    requires RescaleAction(c, s, a, t) && ProgressInv(s)
    ensures ProgressInv(t)
  {
    hide Desired, Stable;
  }

  lemma ProgressHook(s: State, a: Action, t: State)
    requires HookAction(s, a, t) && ProgressInv(s)
    ensures ProgressInv(t)
  {
  }

  lemma ProgressStep(c: Settings, s: State, a: Action, t: State)
    requires CrdMinima(c) && Next(c, s, a, t) && HandoffInv(s)
    ensures ProgressInv(t)
  {
    hide OperateAction, UpdateAction, RescaleAction, DrainAction, HookAction, ScalerAction, EnvAction, Done;
    if OperateAction(c, s, a, t) {
      OperateFrames(c, s, a, t);
    } else if UpdateAction(c, s, a, t) {
      UpdateFrames(c, s, a, t);
    } else if RescaleAction(c, s, a, t) {
      ProgressRescale(c, s, a, t);
    } else if DrainAction(c, s, a, t) {
      DrainFrames(c, s, a, t);
    } else if HookAction(s, a, t) {
      ProgressHook(s, a, t);
    } else if ScalerAction(c, s, a, t) {
      ScalerFrames(c, s, a, t);
    } else {
      EnvFrames(s, a, t);
    }
  }

  // ----- DecrementInv -----

  lemma DecrementRescale(c: Settings, s: State, a: Action, t: State)
    requires RescaleAction(c, s, a, t) && DecrementInv(s) && StoredInv(s)
    ensures DecrementInv(t)
  {
    RescaleFrames(c, s, a, t);
    DoneAlike(s, t);
    hide Stable, Done;
  }

  lemma DecrementHook(s: State, a: Action, t: State)
    requires HookAction(s, a, t) && HandoffInv(s)
    ensures DecrementInv(t)
  {
    HookGrows(s, a, t);
    forall id | 0 <= id < |s.written| && Done(s, id) ensures Done(t, id) {
      DoneStays(s, t, id);
    }
    if a.RemoveAnnotation? {
      RemovedIsDone(s, t);
    }
    hide Done;
  }

  lemma DecrementStep(c: Settings, s: State, a: Action, t: State)
    requires CrdMinima(c) && Next(c, s, a, t) && HandoffInv(s)
    ensures DecrementInv(t)
  {
    hide Next, OperateAction, UpdateAction, RescaleAction, DrainAction, HookAction, ScalerAction, EnvAction, Done;
    if HookAction(s, a, t) {
      DecrementHook(s, a, t);
    } else if ScalerAction(c, s, a, t) {
      ScalerFrames(c, s, a, t);
      PublishNeedsNothingPending(c, s, a, t);
      forall id | 0 <= id < |s.written| && Done(s, id) ensures Done(t, id) {
        DoneStays(s, t, id);
      }
    } else {
      QuietSteps(c, s, a, t);
      DoneAlike(s, t);
      DecrementQuiet(c, s, a, t);
    }
  }

  lemma DecrementQuiet(c: Settings, s: State, a: Action, t: State)
    requires CrdMinima(c) && Next(c, s, a, t) && HandoffInv(s)
    requires !HookAction(s, a, t) && !ScalerAction(c, s, a, t)
    ensures DecrementInv(t)
  {
    hide OperateAction, UpdateAction, RescaleAction, DrainAction, HookAction, ScalerAction, EnvAction, Done;
    QuietSteps(c, s, a, t);
    DoneAlike(s, t);
    if OperateAction(c, s, a, t) {
      OperateFrames(c, s, a, t);
    } else if UpdateAction(c, s, a, t) {
      UpdateFrames(c, s, a, t);
    } else if RescaleAction(c, s, a, t) {
      DecrementRescale(c, s, a, t);
    } else if DrainAction(c, s, a, t) {
      DrainFrames(c, s, a, t);
    } else {
      EnvFrames(s, a, t);
    }
  }

  // ----- every run -----

  lemma HandoffStep(c: Settings, s: State, a: Action, t: State)
    requires CrdMinima(c) && Next(c, s, a, t) && HandoffInv(s)
    ensures HandoffInv(t)
  {
    CopiesStep(c, s, a, t);
    StoredStep(c, s, a, t);
    HookCopiesStep(c, s, a, t);
    ProgressStep(c, s, a, t);
    DecrementStep(c, s, a, t);
    hide Next, CopiesInv, StoredInv, HookCopiesInv, ProgressInv, DecrementInv;
  }

  lemma HandoffInitially(s: State)
    requires Init(s)
    ensures HandoffInv(s)
  {
  }

  lemma {:induction false} HandoffAlways(c: Settings, run: seq<State>, actions: seq<Action>, i: nat)
    requires CrdMinima(c) && Run(c, run, actions) && i < |run|
    ensures HandoffInv(run[i])
  {
    if i == 0 {
      HandoffInitially(run[0]);
    } else {
      HandoffAlways(c, run, actions, i - 1);
      hide Next, HandoffInv, Init;
      HandoffStep(c, run[i - 1], actions[i - 1], run[i]);
    }
  }

  /** The operation id a hook step sends or removes. */
  ghost function HookId(s: State): int {
    if InHook(s.loop) && HookOperation(s.loop).Some? then HookOperation(s.loop).value.id else -1
  }

  /** Only a hook sends or removes an operation, and only a rescale sets the size. */
  lemma GroupOfAction(c: Settings, s: State, a: Action, t: State)
    requires CrdMinima(c) && Next(c, s, a, t)
    ensures a.SendIndex? || a.IndexMissing? || a.RemoveAnnotation? ==> HookAction(s, a, t)
    ensures a.Resize? ==> ResizeStep(s, t)
  {
  }

  lemma StepIsSafe(c: Settings, s: State, a: Action, t: State)
    requires CrdMinima(c) && Next(c, s, a, t) && HandoffInv(s)
    ensures t.written != s.written ==> s.eds.pending.None?
    ensures a.RemoveAnnotation? ==>
              && s.eds.pending.Some? && s.eds.pending.value.id == |s.written| - 1
              && Done(s, |s.written| - 1)
    ensures a.SendIndex? || a.IndexMissing? ==> HookId(s) >= s.newest
    ensures a.Resize? && s.loop.target < s.loop.sts.replicas ==>
              forall id :: 0 <= id < s.loop.known ==> id < |s.written| && Done(s, id)
  {
    GroupOfAction(c, s, a, t);
    WritesWithNonePending(c, s, a, t);
    if a.RemoveAnnotation? {
      RemovedIsDone(s, t);
    }
    hide Next, Done, CopiesInv;
  }

  lemma WritesWithNonePending(c: Settings, s: State, a: Action, t: State)
    requires CrdMinima(c) && Next(c, s, a, t) && CopiesInv(s) && StoredInv(s)
    ensures t.written != s.written ==> s.eds.pending.None?
  {
    if HookAction(s, a, t) {
      HookFrames(s, a, t);
    } else if ScalerAction(c, s, a, t) {
      PublishNeedsNothingPending(c, s, a, t);
    } else {
      QuietSteps(c, s, a, t);
    }
    hide Next, HookAction, ScalerAction, CopiesInv, StoredInv;
  }

  /**
    Main result. In every run of the two loops, whatever fails or restarts between any two calls:
    an operation is written only while none is pending; the annotation removed is the stored one
    and all its index replicas were accepted before, unless a deleted index cut the sending short;
    no operation is sent after a newer one; and when the StatefulSet shrinks, every operation
    written before the desired count was read has been sent.
  */
  lemma HandoffIsSafe(c: Settings, run: seq<State>, actions: seq<Action>, i: nat)
    requires CrdMinima(c) && Run(c, run, actions) && i < |actions|
    ensures run[i + 1].written != run[i].written ==> run[i].eds.pending.None?
    ensures actions[i].RemoveAnnotation? ==>
              && run[i].eds.pending.Some? && run[i].eds.pending.value.id == |run[i].written| - 1
              && Done(run[i], |run[i].written| - 1)
    ensures actions[i].SendIndex? || actions[i].IndexMissing? ==> HookId(run[i]) >= run[i].newest
    ensures actions[i].Resize? && run[i].loop.target < run[i].loop.sts.replicas ==>
              forall id :: 0 <= id < run[i].loop.known ==> id < |run[i].written| && Done(run[i], id)
  {
    HandoffAlways(c, run, actions, i);
    assert Next(c, run[i], actions[i], run[i + 1]);
    hide *;
    StepIsSafe(c, run[i], actions[i], run[i + 1]);
  }
}
