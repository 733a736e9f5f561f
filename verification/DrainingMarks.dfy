/** The draining mark over whole runs: which Pods carry it, and when a second one comes to. */
module DrainingMarks {
  import opened Autoscaler
  import opened Pods
  import opened ControlLoop

  ghost function Marked(pods: map<int, Pod>): set<int> {
    set o | o in pods && pods[o].draining
  }

  ghost predicate AtMostOneMarked(pods: map<int, Pod>) {
    forall o, p :: o in pods && p in pods && pods[o].draining && pods[p].draining ==> o == p
  }

  /** The ordinal of the Pod a rolling update is at. */
  function Target(s: State): int {
    if s.loop.pod.Some? then Number(s.loop.pod.value) else 0
  }

  /** Whether the selected Pod carried the mark in the cache. */
  predicate SelectedMarked(s: State) {
    s.loop.pod.Some? && s.loop.pod.value.draining
  }

  // ----- one step -----

  lemma MarksUpdate(c: Settings, s: State, a: Action, t: State)
    requires UpdateAction(c, s, a, t)
    ensures !a.Mark? ==> Marked(t.pods) <= Marked(s.pods)
    ensures a.Mark? ==> Marked(t.pods) == Marked(s.pods) + (if SelectedMarked(s) then {} else {Target(s)})
  {
    hide Prioritized, CacheShowsMarks, AllNumbered, Stable, Desired;
  }

  lemma MarksEnv(s: State, a: Action, t: State)
    requires EnvAction(s, a, t)
    ensures Marked(t.pods) <= Marked(s.pods) && !a.Mark?
  {
    hide ReadyCount;
    forall o | o in Marked(t.pods) ensures o in Marked(s.pods) {
      assert o in t.pods && t.pods[o].draining;
    }
  }

  /** Only a Mark step adds a mark, and it marks the Pod that has the selected name. */
  lemma MarksStep(c: Settings, s: State, a: Action, t: State)
    requires CrdMinima(c) && Next(c, s, a, t)
    ensures !a.Mark? ==> Marked(t.pods) <= Marked(s.pods)
    ensures a.Mark? ==> Marked(t.pods) == Marked(s.pods) + (if SelectedMarked(s) then {} else {Target(s)})
  {
    hide OperateAction, UpdateAction, RescaleAction, DrainAction, HookAction, ScalerAction, EnvAction, Marked;
    if UpdateAction(c, s, a, t) {
      MarksUpdate(c, s, a, t);
    } else if EnvAction(s, a, t) {
      MarksEnv(s, a, t);
    } else {
      MarksElsewhere(c, s, a, t);
    }
  }

  lemma MarksElsewhere(c: Settings, s: State, a: Action, t: State)
    requires CrdMinima(c) && Next(c, s, a, t) && !UpdateAction(c, s, a, t) && !EnvAction(s, a, t)
    ensures t.pods == s.pods && !a.Mark?
  {
    hide OperateAction, RescaleAction, DrainAction, HookAction, ScalerAction, UpdateAction, EnvAction;
    if OperateAction(c, s, a, t) {
      OperateFrames(c, s, a, t);
    } else if RescaleAction(c, s, a, t) {
      RescaleFrames(c, s, a, t);
    } else if DrainAction(c, s, a, t) {
      DrainFrames(c, s, a, t);
    } else if HookAction(s, a, t) {
      HookFrames(s, a, t);
    } else {
      ScalerFrames(c, s, a, t);
    }
  }

  /** A Pod that is selected though the cache shows it unmarked leaves only marked Pods without a node. */
  lemma UnmarkedSelection(c: Settings, s: State, a: Action, t: State)
    requires a.SelectPod? && SelectStep(c, s, a.x, a.view, a.prioritized, t)
    requires PodToUpdate(a.prioritized).Some? && !SelectedMarked(t)
    ensures forall o :: o in Marked(s.pods) ==> s.pods[o].node == ""
    ensures t.pods == s.pods
  {
    ChosenPod(a.x, a.view, a.prioritized);
    hide Prioritized, Desired, NeedsUpdate, Before;
  }

  // ----- from the selection to the mark -----

  predicate BeforeMark(pc: Pc) {
    pc in {Surging, AwaitSurge, Marking}
  }

  /** The Pod that is to be marked at k was selected at j. */
  ghost predicate SelectedAt(run: seq<State>, actions: seq<Action>, j: nat, k: nat) {
    && j < k < |run| == |actions| + 1
    && actions[j].SelectPod?
    && forall m :: j < m <= k ==> BeforeMark(run[m].loop.pc)
  }

  /** On the way to a mark the selected Pod stays the same, and it starts with a selection. */
  lemma EntersBySelection(c: Settings, s: State, a: Action, t: State)
    requires CrdMinima(c) && Next(c, s, a, t) && BeforeMark(t.loop.pc)
    ensures a.SelectPod? || (BeforeMark(s.loop.pc) && t.loop.pod == s.loop.pod)
    ensures a.SelectPod? ==> SelectStep(c, s, a.x, a.view, a.prioritized, t) && PodToUpdate(a.prioritized).Some?
    ensures !a.Mark?
  {
    hide OperateAction, UpdateAction, RescaleAction, DrainAction, HookAction, ScalerAction, EnvAction, SelectStep;
    if UpdateAction(c, s, a, t) {
      UpdateEnters(c, s, a, t);
    } else if EnvAction(s, a, t) {
      EnvFrames(s, a, t);
    } else if ScalerAction(c, s, a, t) {
      ScalerFrames(c, s, a, t);
    } else if OperateAction(c, s, a, t) {
      OperateFrames(c, s, a, t);
    } else if RescaleAction(c, s, a, t) {
      RescaleFrames(c, s, a, t);
    } else if DrainAction(c, s, a, t) {
      DrainFrames(c, s, a, t);
    } else {
      HookFrames(s, a, t);
    }
  }

  lemma UpdateEnters(c: Settings, s: State, a: Action, t: State)
    requires UpdateAction(c, s, a, t) && BeforeMark(t.loop.pc)
    ensures a.SelectPod? || (BeforeMark(s.loop.pc) && t.loop.pod == s.loop.pod)
    ensures a.SelectPod? ==> SelectStep(c, s, a.x, a.view, a.prioritized, t) && PodToUpdate(a.prioritized).Some?
    ensures !a.Mark?
  {
    hide Prioritized, CacheShowsMarks, AllNumbered, Stable, Desired;
  }

  /** What every step of a run does on the way to a mark. */
  ghost predicate Link(c: Settings, s: State, a: Action, t: State) {
    && (!a.Mark? ==> Marked(t.pods) <= Marked(s.pods))
    && (BeforeMark(t.loop.pc) ==>
          && !a.Mark?
          && (a.SelectPod? || (BeforeMark(s.loop.pc) && t.loop.pod == s.loop.pod))
          && (a.SelectPod? ==> SelectStep(c, s, a.x, a.view, a.prioritized, t) && PodToUpdate(a.prioritized).Some?))
  }

  ghost predicate Linked(c: Settings, run: seq<State>, actions: seq<Action>) {
    && |run| == |actions| + 1 && run[0].loop.pc == Idle
    && forall i :: 0 <= i < |actions| ==> Link(c, run[i], actions[i], run[i + 1])
  }

  lemma RunIsLinked(c: Settings, run: seq<State>, actions: seq<Action>)
    requires CrdMinima(c) && Run(c, run, actions)
    ensures Linked(c, run, actions)
  {
    RunBegins(c, run, actions);
    forall i | 0 <= i < |actions| ensures Link(c, run[i], actions[i], run[i + 1]) {
      RunStep(c, run, actions, i);
      StepIsLink(c, run[i], actions[i], run[i + 1]);
    }
    hide Run, Next, Init, Link;
  }

  lemma StepIsLink(c: Settings, s: State, a: Action, t: State)
    requires CrdMinima(c) && Next(c, s, a, t)
    ensures Link(c, s, a, t)
  {
    hide Next, SelectStep, PodToUpdate, Marked;
    MarksStep(c, s, a, t);
    if BeforeMark(t.loop.pc) {
      EntersBySelection(c, s, a, t);
    }
  }

  lemma {:induction false} SelectionOf(c: Settings, run: seq<State>, actions: seq<Action>, k: nat) returns (j: nat)
    requires Linked(c, run, actions) && k < |run| && BeforeMark(run[k].loop.pc)
    ensures SelectedAt(run, actions, j, k)
    ensures SelectStep(c, run[j], actions[j].x, actions[j].view, actions[j].prioritized, run[j + 1])
    ensures PodToUpdate(actions[j].prioritized).Some?
    ensures run[j + 1].loop.pod == run[k].loop.pod && Marked(run[k].pods) <= Marked(run[j + 1].pods)
  {
    hide SelectStep, PodToUpdate, Marked;
    assert k > 0;
    assert Link(c, run[k - 1], actions[k - 1], run[k]);
    if actions[k - 1].SelectPod? {
      j := k - 1;
      SelectedNow(run, actions, j);
    } else {
      j := SelectionOf(c, run, actions, k - 1);
      StillSelected(run, actions, j, k);
    }
    hide Linked, Link;
  }

  lemma SelectedNow(run: seq<State>, actions: seq<Action>, j: nat)
    requires j + 1 < |run| == |actions| + 1 && actions[j].SelectPod? && BeforeMark(run[j + 1].loop.pc)
    ensures SelectedAt(run, actions, j, j + 1)
  {
  }

  lemma StillSelected(run: seq<State>, actions: seq<Action>, j: nat, k: nat)
    requires 0 < k < |run| && SelectedAt(run, actions, j, k - 1) && BeforeMark(run[k].loop.pc)
    ensures SelectedAt(run, actions, j, k)
  {
  }

  // ----- when a second mark comes about -----

  /** A Mark step adds a mark and leaves more than one. */
  ghost predicate SecondMark(s: State, t: State) {
    Marked(t.pods) != Marked(s.pods) && !AtMostOneMarked(t.pods)
  }

  /**
    A Pod other than the one to be marked, that carried the mark and had no node when this one
    was selected, is still there with its mark.
  */
  ghost predicate StrayRemains(run: seq<State>, actions: seq<Action>, k: nat)
    requires k < |run|
  {
    exists j: nat, p :: SelectedAt(run, actions, j, k) && p in Marked(run[j].pods) && run[j].pods[p].node == ""
                        && p in Marked(run[k].pods) && p != Target(run[k])
  }

  /** The mark goes to a Pod that neither the cache nor the cluster shows as marked, while a stray one remains. */
  ghost predicate MarksBesideStray(run: seq<State>, actions: seq<Action>, k: nat)
    requires k < |run|
  {
    !SelectedMarked(run[k]) && Target(run[k]) !in Marked(run[k].pods) && StrayRemains(run, actions, k)
  }

  /**
    Main result. In every run a Mark step makes a second mark if and only if it marks an unmarked
    Pod while a Pod that was marked and without a node at this cycle's selection is still there.
  */
  lemma SecondMarkExactly(c: Settings, run: seq<State>, actions: seq<Action>, k: nat)
    requires CrdMinima(c) && Run(c, run, actions) && k < |actions| && actions[k].Mark?
    ensures SecondMark(run[k], run[k + 1]) <==> MarksBesideStray(run, actions, k)
  {
    var s, t := run[k], run[k + 1];
    assert Next(c, s, actions[k], t);
    MarkHappens(c, s, actions[k], t);
    MarksStep(c, s, actions[k], t);
    RunIsLinked(c, run, actions);
    var j := SelectionOf(c, run, actions, k);
    if !SelectedMarked(s) {
      UnmarkedSelection(c, run[j], actions[j], run[j + 1]);
    }
    hide Run, Next, SelectStep, PodToUpdate, Linked;
    if SecondMark(s, t) {
      AnotherMarked(t.pods, Target(s));
      var p :| p in Marked(t.pods) && p != Target(s);
      assert p in Marked(s.pods) && p in Marked(run[j].pods);
    }
  }

  lemma AnotherMarked(pods: map<int, Pod>, o: int)
    requires !AtMostOneMarked(pods)
    ensures exists p :: p in Marked(pods) && p != o
  {
    var p, q :| p in pods && q in pods && pods[p].draining && pods[q].draining && p != q;
    assert p in Marked(pods) && q in Marked(pods);
  }

  lemma MarkHappens(c: Settings, s: State, a: Action, t: State)
    requires CrdMinima(c) && Next(c, s, a, t) && a.Mark?
    ensures BeforeMark(s.loop.pc)
    ensures !SelectedMarked(s) ==> Target(s) in Marked(t.pods)
  {
    hide OperateAction, RescaleAction, DrainAction, HookAction, ScalerAction, EnvAction;
    if !UpdateAction(c, s, a, t) {
      MarksElsewhereOrEnv(c, s, a, t);
    }
  }

  lemma MarksElsewhereOrEnv(c: Settings, s: State, a: Action, t: State)
    requires CrdMinima(c) && Next(c, s, a, t) && !UpdateAction(c, s, a, t)
    ensures !a.Mark?
  {
    hide OperateAction, UpdateAction, RescaleAction, DrainAction, HookAction, ScalerAction, EnvAction;
    if EnvAction(s, a, t) {
      MarksEnv(s, a, t);
    } else {
      MarksElsewhere(c, s, a, t);
    }
  }

  lemma OneMarkOrStray(c: Settings, run: seq<State>, actions: seq<Action>, k: nat)
    requires CrdMinima(c) && Run(c, run, actions) && k < |actions| && AtMostOneMarked(run[k].pods)
    ensures AtMostOneMarked(run[k + 1].pods) <==> !(actions[k].Mark? && MarksBesideStray(run, actions, k))
  {
    assert Next(c, run[k], actions[k], run[k + 1]);
    MarksStep(c, run[k], actions[k], run[k + 1]);
    FewerMarked(run[k].pods, run[k + 1].pods);
    if actions[k].Mark? {
      SecondMarkExactly(c, run, actions, k);
    }
    hide Run, Next, MarksBesideStray, Marked, AtMostOneMarked;
  }

  /**
    Main result. Every run keeps at most one Pod marked up to a point if and only if no Mark step
    before it marks beside a stray Pod.
  */
  lemma {:induction false} AtMostOneDraining(c: Settings, run: seq<State>, actions: seq<Action>, i: nat)
    requires CrdMinima(c) && Run(c, run, actions) && i < |run|
    ensures (forall n :: 0 <= n <= i ==> AtMostOneMarked(run[n].pods))
       <==> (forall k :: 0 <= k < i && actions[k].Mark? ==> !MarksBesideStray(run, actions, k))
  {
    hide MarksBesideStray, Next;
    if i > 0 {
      AtMostOneDraining(c, run, actions, i - 1);
      if AtMostOneMarked(run[i - 1].pods) {
        OneMarkOrStray(c, run, actions, i - 1);
      }
      hide Run, AtMostOneMarked;
    }
  }

  lemma FewerMarked(before: map<int, Pod>, after: map<int, Pod>)
    ensures AtMostOneMarked(before) && Marked(after) <= Marked(before) ==> AtMostOneMarked(after)
  {
    if AtMostOneMarked(before) && Marked(after) <= Marked(before) {
      forall o, p | o in after && p in after && after[o].draining && after[p].draining ensures o == p {
        assert o in Marked(after) && p in Marked(after);
      }
    }
  }
}
