/**
  What a cycle waits for and in which order it does things, over whole runs: stability before every
  disruption, the drain before the deletion, and each change of the size by the desired count.
*/
module CycleOrder {
  import opened Base
  import opened Autoscaler
  import opened Pods
  import opened ControlLoop
  import opened RolloutSafety

  // ----- the desired count -----

  /**
    spec.replicas wins. Unset, there is a count if and only if scaling is enabled with a positive
    minimum; it is then the larger of that minimum and the size last reported.
  */
  lemma DesiredMeaning(c: Settings, eds: Eds)
    ensures eds.replicas.Some? ==> Desired(c, eds) == eds.replicas
    ensures eds.replicas.None? ==> (Desired(c, eds).Some? <==> c.enabled && c.minReplicas > 0)
    ensures eds.replicas.None? && Desired(c, eds).Some? ==>
              var n := Desired(c, eds).value;
              n >= c.minReplicas && n >= eds.statusReplicas && (n == c.minReplicas || n == eds.statusReplicas)
  {
  }

  // ----- waiting for stability -----

  /** As many Pods are ready as the StatefulSet has replicas, no more and no fewer. */
  ghost predicate AllReady(s: State) {
    s.sts.Some? && |set o | o in s.pods && s.pods[o].ready| == s.sts.value.replicas
  }

  lemma StableIsAllReady(s: State)
    ensures Stable(s) <==> AllReady(s)
  {
    assert ReadyPods(s.pods) == set o | o in s.pods && s.pods[o].ready;
  }

  predicate Waits(a: Action) {
    a.SurgeStable? || a.DrainNext? || a.ResizeStable? || a.AllStable?
  }

  /** Main result. In every run the loop marks, drains or goes on after a resize only with all Pods ready. */
  lemma WaitsForAllReady(c: Settings, run: seq<State>, actions: seq<Action>, i: nat)
    requires CrdMinima(c) && Run(c, run, actions) && i < |actions| && Waits(actions[i])
    ensures AllReady(run[i])
  {
    RunStep(c, run, actions, i);
    StepOfGroup(c, run[i], actions[i], run[i + 1]);
    StableIsAllReady(run[i]);
    hide Run, Next, Stable, AllReady;
  }

  /** And all Pods being ready is all it waits for. */
  lemma WaitEndsExactly(c: Settings, s: State)
    ensures s.loop.pc == AwaitSurge ==> ((exists t :: UpdateAction(c, s, SurgeStable, t)) <==> AllReady(s))
    ensures s.loop.pc == AwaitResize ==> ((exists t :: RescaleAction(c, s, ResizeStable, t)) <==> AllReady(s))
    ensures s.loop.pc == AwaitStable ==> ((exists t :: RescaleAction(c, s, AllStable, t)) <==> AllReady(s))
    ensures s.loop.pc == SliceChecked && s.loop.todo != [] && !s.loop.todo[0].pending ==>
              ((exists t :: DrainAction(c, s, DrainNext, t)) <==> AllReady(s))
  {
    StableIsAllReady(s);
    hide Stable, AllReady;
    if AllReady(s) {
      var l := s.loop;
      if l.pc == AwaitSurge {
        assert UpdateAction(c, s, SurgeStable, s.(loop := l.(pc := Marking), losses := 0));
      } else if l.pc == AwaitResize {
        assert RescaleAction(c, s, ResizeStable, s.(loop := AfterRescale(l)));
      } else if l.pc == AwaitStable {
        assert RescaleAction(c, s, AllStable, s.(loop := l.(pc := FinalHook, sent := 0)));
      } else if l.pc == SliceChecked && l.todo != [] && !l.todo[0].pending {
        assert DrainAction(c, s, DrainNext, s.(loop := l.(pc := ScaleDraining, todo := l.todo[1..],
                                                          drained := l.drained + [l.todo[0]])));
      }
    }
  }

  // ----- the update of a Pod, step by step -----

  /** Where the loop is after a step of an update. */
  predicate After(a: Action, pc: Pc) {
    (a.SurgeStable? && pc == Marking) || (a.Mark? && pc == DrainingPod) || (a.DrainPod? && pc == Deleting)
  }

  predicate Updated(pc: Pc) {
    pc in {Marking, DrainingPod, Deleting}
  }

  /** The loop comes to each of these points by one step only, and keeps its Pod there. */
  ghost predicate Link(s: State, a: Action, t: State) {
    Updated(t.loop.pc) ==>
      && t.loop.pod == s.loop.pod
      && (t.loop.pc == s.loop.pc || After(a, t.loop.pc))
      && (After(a, Marking) ==> s.loop.pc == AwaitSurge) && (After(a, DrainingPod) ==> s.loop.pc == Marking)
      && (After(a, Deleting) ==> s.loop.pc == DrainingPod)
  }

  lemma LinkUpdate(c: Settings, s: State, a: Action, t: State)
    requires UpdateAction(c, s, a, t)
    ensures Link(s, a, t)
  {
    hide Prioritized, CacheShowsMarks, AllNumbered, Stable, Desired;
  }

  lemma StepIsLink(c: Settings, s: State, a: Action, t: State)
    requires CrdMinima(c) && Next(c, s, a, t)
    ensures Link(s, a, t)
  {
    hide OperateAction, UpdateAction, RescaleAction, DrainAction, HookAction, ScalerAction, EnvAction;
    if UpdateAction(c, s, a, t) {
      LinkUpdate(c, s, a, t);
    } else if OperateAction(c, s, a, t) {
      OperateFrames(c, s, a, t);
    } else if RescaleAction(c, s, a, t) {
      RescaleFrames(c, s, a, t);
    } else if DrainAction(c, s, a, t) {
      DrainFrames(c, s, a, t);
    } else if HookAction(s, a, t) {
      HookFrames(s, a, t);
    } else if ScalerAction(c, s, a, t) {
      ScalerFrames(c, s, a, t);
    } else {
      EnvFrames(s, a, t);
    }
  }

  ghost predicate Linked(run: seq<State>, actions: seq<Action>) {
    && |run| == |actions| + 1 && run[0].loop.pc == Idle
    && forall i :: 0 <= i < |actions| ==> Link(run[i], actions[i], run[i + 1])
  }

  lemma RunIsLinked(c: Settings, run: seq<State>, actions: seq<Action>)
    requires CrdMinima(c) && Run(c, run, actions)
    ensures Linked(run, actions)
  {
    RunBegins(c, run, actions);
    forall i | 0 <= i < |actions| ensures Link(run[i], actions[i], run[i + 1]) {
      RunStep(c, run, actions, i);
      StepIsLink(c, run[i], actions[i], run[i + 1]);
    }
    hide Run, Next, Init, Link;
  }

  /** The step that brought the loop to where it is, in the update of the same Pod. */
  lemma {:induction false} CameBy(run: seq<State>, actions: seq<Action>, i: nat) returns (j: nat)
    requires Linked(run, actions) && i < |run| && Updated(run[i].loop.pc)
    ensures j < i && After(actions[j], run[i].loop.pc) && run[j].loop.pod == run[i].loop.pod
    ensures Link(run[j], actions[j], run[j + 1]) && run[j + 1].loop.pc == run[i].loop.pc
  {
    assert i > 0;
    assert Link(run[i - 1], actions[i - 1], run[i]);
    if After(actions[i - 1], run[i].loop.pc) {
      j := i - 1;
    } else {
      j := CameBy(run, actions, i - 1);
    }
  }

  /**
    Main result. In every run a Pod that is deleted has been drained, after the Pod of its name was
    marked, after all Pods were ready, all of it for the same selected Pod.
  */
  lemma DeletedWasDrained(c: Settings, run: seq<State>, actions: seq<Action>, i: nat)
    returns (w: nat, m: nat, d: nat)
    requires CrdMinima(c) && Run(c, run, actions) && i < |actions| && actions[i].Delete?
    ensures w < m < d < i && actions[w].SurgeStable? && actions[m].Mark? && actions[d].DrainPod?
    ensures AllReady(run[w])
    ensures run[w].loop.pod == run[m].loop.pod == run[d].loop.pod == run[i].loop.pod
    ensures run[i].loop.pod.Some? && run[i + 1].pods == run[i].pods - {Number(run[i].loop.pod.value)}
    ensures run[m].loop.pod.value.draining
            || (Number(run[m].loop.pod.value) in run[m + 1].pods
                && run[m + 1].pods[Number(run[m].loop.pod.value)].draining)
  {
    RunIsLinked(c, run, actions);
    DeleteHappens(c, run, actions, i);
    d := CameBy(run, actions, i);
    m := CameBy(run, actions, d);
    w := CameBy(run, actions, m);
    MarkHappens(c, run, actions, m);
    WaitsForAllReady(c, run, actions, w);
    hide Run, AllReady, Linked, Link;
  }

  lemma DeleteHappens(c: Settings, run: seq<State>, actions: seq<Action>, i: nat)
    requires CrdMinima(c) && Run(c, run, actions) && i < |actions| && actions[i].Delete?
    ensures run[i].loop.pc == Deleting && run[i].loop.pod.Some?
    ensures run[i + 1].pods == run[i].pods - {Number(run[i].loop.pod.value)}
  {
    RunStep(c, run, actions, i);
    StepOfGroup(c, run[i], actions[i], run[i + 1]);
    hide Run, Next;
  }

  lemma MarkHappens(c: Settings, run: seq<State>, actions: seq<Action>, i: nat)
    requires CrdMinima(c) && Run(c, run, actions) && i < |actions| && actions[i].Mark?
    ensures run[i].loop.pod.Some?
    ensures run[i].loop.pod.value.draining
            || (Number(run[i].loop.pod.value) in run[i + 1].pods
                && run[i + 1].pods[Number(run[i].loop.pod.value)].draining)
  {
    RunStep(c, run, actions, i);
    StepOfGroup(c, run[i], actions[i], run[i + 1]);
    hide Run, Next;
  }

  // ----- what a hook does -----

  /** The annotation in the copy of the EDS a hook works on. */
  function HookAnnotation(l: Loop): Option<Pending> {
    if l.pc == PreHook then l.cur.pending else l.sr.pending
  }

  /**
    A hook passes without an operation, or one without a direction. Otherwise it sends the indices one
    by one, and removes the annotation after the last if its copy of the EDS is the stored one.
  */
  lemma HookActsExactly(s: State)
    requires InHook(s.loop)
    ensures var p := HookAnnotation(s.loop);
            var none := p.None? || p.value.operation.direction == NONE;
            && ((exists t :: HookAction(s, SkipHook, t)) <==> none)
            && ((exists t :: HookAction(s, SendIndex, t))
                <==> !none && s.loop.sent < |p.value.operation.indexReplicas|)
            && ((exists t :: HookAction(s, RemoveAnnotation, t))
                <==> !none && s.loop.sent == |p.value.operation.indexReplicas|
                     && s.eds.version == if s.loop.pc == PreHook then s.loop.cur.version else s.loop.sr.version)
  {
    var l, p := s.loop, HookAnnotation(s.loop);
    if p.None? || p.value.operation.direction == NONE {
      assert HookAction(s, SkipHook, s.(loop := AfterHook(l)));
    } else if l.sent < |p.value.operation.indexReplicas| {
      assert HookAction(s, SendIndex, s.(loop := l.(sent := l.sent + 1), newest := Max(s.newest, p.value.id),
                                         accepted := s.accepted + {(p.value.id, l.sent)}));
    } else if l.sent == |p.value.operation.indexReplicas| && s.eds.version == HookVersion(l) {
      assert HookAction(s, RemoveAnnotation,
                        s.(loop := AfterHook(l), eds := s.eds.(version := s.eds.version + 1, pending := None)));
    }
  }

  // ----- the StatefulSet is written as it was read -----

  /** Any change of the StatefulSet raises its version, and the loop keeps the version it read. */
  ghost predicate StsLink(s: State, a: Action, t: State) {
    && (s.sts.Some? ==> t.sts.Some? && (t.sts == s.sts || t.sts.value.version > s.sts.value.version))
    && (HoldsSts(t.loop.pc) ==>
          || (a.Reconcile? && t.sts == Some(t.loop.sts))
          || (HoldsSts(s.loop.pc) && t.loop.sts.version == s.loop.sts.version))
  }

  lemma StsOperate(c: Settings, s: State, a: Action, t: State)
    requires OperateAction(c, s, a, t)
    ensures StsLink(s, a, t)
  {
    hide Desired;
  }

  lemma StsUpdate(c: Settings, s: State, a: Action, t: State)
    requires UpdateAction(c, s, a, t)
    ensures StsLink(s, a, t)
  {
    hide Prioritized, CacheShowsMarks, AllNumbered, Stable, Desired;
  }

  lemma StsRescale(c: Settings, s: State, a: Action, t: State)
    requires RescaleAction(c, s, a, t)
    ensures StsLink(s, a, t)
  {
    hide Stable, Desired;
  }

  lemma StsEnv(s: State, a: Action, t: State)
    requires EnvAction(s, a, t)
    ensures StsLink(s, a, t)
  {
    hide ReadyCount, NoNewMarks;
  }

  lemma StsStep(c: Settings, s: State, a: Action, t: State)
    requires CrdMinima(c) && Next(c, s, a, t)
    ensures StsLink(s, a, t)
  {
    hide OperateAction, UpdateAction, RescaleAction, DrainAction, HookAction, ScalerAction, EnvAction;
    if OperateAction(c, s, a, t) {
      StsOperate(c, s, a, t);
    } else if UpdateAction(c, s, a, t) {
      StsUpdate(c, s, a, t);
    } else if RescaleAction(c, s, a, t) {
      StsRescale(c, s, a, t);
    } else if EnvAction(s, a, t) {
      StsEnv(s, a, t);
    } else if DrainAction(c, s, a, t) {
      DrainFrames(c, s, a, t);
    } else if HookAction(s, a, t) {
      HookFrames(s, a, t);
    } else {
      ScalerFrames(c, s, a, t);
    }
  }

  ghost predicate StsLinked(run: seq<State>, actions: seq<Action>) {
    && |run| == |actions| + 1 && run[0].loop.pc == Idle
    && forall i :: 0 <= i < |actions| ==> StsLink(run[i], actions[i], run[i + 1])
  }

  lemma RunIsStsLinked(c: Settings, run: seq<State>, actions: seq<Action>)
    requires CrdMinima(c) && Run(c, run, actions)
    ensures StsLinked(run, actions)
  {
    RunBegins(c, run, actions);
    forall i | 0 <= i < |actions| ensures StsLink(run[i], actions[i], run[i + 1]) {
      RunStep(c, run, actions, i);
      StsStep(c, run[i], actions[i], run[i + 1]);
    }
    hide Run, Next, Init, StsLink;
  }

  /** The StatefulSet has not changed after j up to i. */
  ghost predicate SameSts(run: seq<State>, j: nat, i: nat) {
    j <= i < |run| && forall m :: j <= m <= i ==> run[m].sts == run[j].sts
  }

  /** When the loop read the StatefulSet; while its version is still that of the copy, nothing has changed. */
  lemma {:induction false} StsReadAt(run: seq<State>, actions: seq<Action>, i: nat) returns (j: nat)
    requires StsLinked(run, actions) && i < |run| && HoldsSts(run[i].loop.pc)
    ensures j < i && actions[j].Reconcile? && run[j + 1].sts == Some(run[j + 1].loop.sts)
    ensures run[i].sts.Some? && run[i].loop.sts.version == run[j + 1].loop.sts.version
    ensures run[i].sts.value.version >= run[j + 1].loop.sts.version
    ensures run[i].sts.value.version == run[i].loop.sts.version ==> SameSts(run, j + 1, i)
  {
    assert i > 0;
    assert StsLink(run[i - 1], actions[i - 1], run[i]);
    if actions[i - 1].Reconcile? && run[i].sts == Some(run[i].loop.sts) {
      j := i - 1;
    } else {
      j := StsReadAt(run, actions, i - 1);
    }
  }

  /**
    Main result. In every run the loop sets the size only of a StatefulSet nobody has written since it
    read it in this cycle.
  */
  lemma SizedAsRead(c: Settings, run: seq<State>, actions: seq<Action>, i: nat) returns (j: nat)
    requires CrdMinima(c) && Run(c, run, actions) && i < |actions| && (actions[i].Surge? || actions[i].Resize?)
    ensures j < i && actions[j].Reconcile? && SameSts(run, j + 1, i)
    ensures run[j + 1].sts == Some(run[j + 1].loop.sts) && run[i].sts == Some(run[i].loop.sts)
  {
    RunIsStsLinked(c, run, actions);
    CopyAlways(c, run, actions, i);
    SizingHappens(c, run, actions, i);
    j := StsReadAt(run, actions, i);
    hide Run, StsLinked;
  }

  lemma SizingHappens(c: Settings, run: seq<State>, actions: seq<Action>, i: nat)
    requires CrdMinima(c) && Run(c, run, actions) && i < |actions| && (actions[i].Surge? || actions[i].Resize?)
    ensures HoldsSts(run[i].loop.pc) && run[i].sts.Some?
    ensures run[i].sts.value.version == run[i].loop.sts.version
  {
    RunStep(c, run, actions, i);
    StepOfGroup(c, run[i], actions[i], run[i + 1]);
    hide Run, Next;
  }

  // ----- every change of the size -----

  /** Where a rescale of n replicas goes when d are desired. */
  ghost predicate Towards(n: int, d: int, target: int) {
    && (d > n ==> target == d)
    && (d < n && n != 0 ==> target == n - 1)
    && (d < n && n == 0 ==> target == 0)
  }

  ghost predicate TargetInv(c: Settings, s: State) {
    var d, n := Desired(c, s.loop.cur), s.loop.sts.replicas;
    && (s.loop.pc == PreHook ==> d.Some? && d.value < n && n != 0)
    && (s.loop.pc in {Listing, ScaleDraining, SliceChecked} ==>
          d.Some? && d.value != n && Towards(n, d.value, s.loop.target))
    && (s.loop.pc == Surging ==> Desired(c, s.loop.sr) == Some(n))
  }

  lemma TargetOperate(c: Settings, s: State, a: Action, t: State)
    requires OperateAction(c, s, a, t) && TargetInv(c, s)
    ensures TargetInv(c, t)
  {
    OperateFrames(c, s, a, t);
    hide OperateAction, Desired;
  }

  lemma TargetUpdate(c: Settings, s: State, a: Action, t: State)
    requires UpdateAction(c, s, a, t) && TargetInv(c, s)
    ensures TargetInv(c, t)
  {
    hide Prioritized, CacheShowsMarks, AllNumbered, Stable, Desired;
  }

  lemma TargetRescale(c: Settings, s: State, a: Action, t: State)
    requires RescaleAction(c, s, a, t) && TargetInv(c, s)
    ensures TargetInv(c, t)
  {
    hide Stable, Desired;
  }

  lemma TargetHook(c: Settings, s: State, a: Action, t: State)
    requires HookAction(s, a, t) && TargetInv(c, s)
    ensures TargetInv(c, t)
  {
    hide Desired;
  }

  lemma TargetStep(c: Settings, s: State, a: Action, t: State)
    requires CrdMinima(c) && Next(c, s, a, t) && TargetInv(c, s)
    ensures TargetInv(c, t)
  {
    hide OperateAction, UpdateAction, RescaleAction, DrainAction, HookAction, ScalerAction, EnvAction, TargetInv;
    if OperateAction(c, s, a, t) {
      TargetOperate(c, s, a, t);
    } else if UpdateAction(c, s, a, t) {
      TargetUpdate(c, s, a, t);
    } else if RescaleAction(c, s, a, t) {
      TargetRescale(c, s, a, t);
    } else if HookAction(s, a, t) {
      TargetHook(c, s, a, t);
    } else {
      TargetElsewhere(c, s, a, t);
    }
  }

  lemma TargetElsewhere(c: Settings, s: State, a: Action, t: State)
    requires CrdMinima(c) && TargetInv(c, s)
    requires DrainAction(c, s, a, t) || ScalerAction(c, s, a, t) || EnvAction(s, a, t)
    ensures TargetInv(c, t)
  {
    hide DrainAction, ScalerAction, EnvAction, Desired;
    if DrainAction(c, s, a, t) {
      DrainFrames(c, s, a, t);
    } else if ScalerAction(c, s, a, t) {
      ScalerFrames(c, s, a, t);
    } else {
      EnvFrames(s, a, t);
    }
  }

  lemma TargetAtFirst(c: Settings, run: seq<State>, actions: seq<Action>)
    requires CrdMinima(c) && Run(c, run, actions)
    ensures TargetInv(c, run[0])
  {
    RunBegins(c, run, actions);
    hide Run, Next, Init, Desired;
  }

  lemma TargetNext(c: Settings, run: seq<State>, actions: seq<Action>, i: nat)
    requires CrdMinima(c) && Run(c, run, actions) && i + 1 < |run| && TargetInv(c, run[i])
    ensures TargetInv(c, run[i + 1])
  {
    RunStep(c, run, actions, i);
    hide Run, Next, Init, TargetInv;
    TargetStep(c, run[i], actions[i], run[i + 1]);
  }

  lemma {:induction false} TargetAlways(c: Settings, run: seq<State>, actions: seq<Action>, i: nat)
    requires CrdMinima(c) && Run(c, run, actions) && i < |run|
    ensures TargetInv(c, run[i])
  {
    hide Run, Next, Init, TargetInv;
    if i == 0 {
      TargetAtFirst(c, run, actions);
    } else {
      TargetAlways(c, run, actions, i - 1);
      TargetNext(c, run, actions, i - 1);
    }
  }

  /** Each way a step may change the size, for any settings and with anybody editing the spec. */
  ghost predicate RightSizeChange(c: Settings, s: State, a: Action, t: State) {
    match s.sts
    case None =>
      t.sts.Some? ==>
        && a.Reconcile? && t.sts.value.replicas >= 1
        && t.sts.value.replicas == (if Desired(c, s.loop.sr).Some? then Desired(c, s.loop.sr).value else 1)
    case Some(sts) =>
      && t.sts.Some?
      && var before, after := sts.replicas, t.sts.value.replicas;
         || (after == before && !a.Surge? && (a.Resize? ==> before == 0))
         || (a.Surge? && Desired(c, s.loop.sr) == Some(before) && after == before + 1)
         || (a.Resize? && Desired(c, s.loop.cur).Some? && Desired(c, s.loop.cur).value != before
             && Towards(before, Desired(c, s.loop.cur).value, after))
  }

  lemma SizeOperate(c: Settings, s: State, a: Action, t: State)
    requires OperateAction(c, s, a, t)
    ensures RightSizeChange(c, s, a, t)
  {
    hide Desired;
  }

  lemma SizeUpdate(c: Settings, s: State, a: Action, t: State)
    requires UpdateAction(c, s, a, t) && TargetInv(c, s) && StsCopyCurrent(s)
    ensures RightSizeChange(c, s, a, t)
  {
    hide Prioritized, CacheShowsMarks, AllNumbered, Stable, Desired;
  }

  lemma SizeRescale(c: Settings, s: State, a: Action, t: State)
    requires RescaleAction(c, s, a, t) && TargetInv(c, s) && StsCopyCurrent(s)
    ensures RightSizeChange(c, s, a, t)
  {
    hide Stable, Desired;
  }

  lemma SizeElsewhere(c: Settings, s: State, a: Action, t: State)
    requires CrdMinima(c)
    requires DrainAction(c, s, a, t) || HookAction(s, a, t) || ScalerAction(c, s, a, t) || EnvAction(s, a, t)
    ensures RightSizeChange(c, s, a, t)
  {
    hide DrainAction, HookAction, ScalerAction, EnvAction, Desired;
    if DrainAction(c, s, a, t) {
      DrainFrames(c, s, a, t);
    } else if HookAction(s, a, t) {
      HookFrames(s, a, t);
    } else if ScalerAction(c, s, a, t) {
      ScalerFrames(c, s, a, t);
    } else {
      EnvFrames(s, a, t);
    }
  }

  lemma {:induction false} CopyAlways(c: Settings, run: seq<State>, actions: seq<Action>, i: nat)
    requires CrdMinima(c) && Run(c, run, actions) && i < |run|
    ensures StsCopyCurrent(run[i])
  {
    RunBegins(c, run, actions);
    hide Next, Init, Run;
    if i > 0 {
      hide StsCopyCurrent;
      CopyAlways(c, run, actions, i - 1);
      RunStep(c, run, actions, i - 1);
      StsCopyStep(c, run[i - 1], actions[i - 1], run[i]);
    }
  }

  /**
    Main result. In every run, whatever the settings and whoever edits the spec: a StatefulSet is created
    with the desired count, at least one; it grows by one for an update at the desired count, goes
    straight up to the count a rescale read, or down by one if that is lower; and in no other way.
  */
  lemma SizeChangesRightly(c: Settings, run: seq<State>, actions: seq<Action>, i: nat)
    requires CrdMinima(c) && Run(c, run, actions) && i < |actions|
    ensures RightSizeChange(c, run[i], actions[i], run[i + 1])
  {
    TargetAlways(c, run, actions, i);
    CopyAlways(c, run, actions, i);
    RunStep(c, run, actions, i);
    var s, a, t := run[i], actions[i], run[i + 1];
    hide Run, OperateAction, UpdateAction, RescaleAction, DrainAction, HookAction, ScalerAction, EnvAction, TargetInv,
         StsCopyCurrent, RightSizeChange;
    if OperateAction(c, s, a, t) {
      SizeOperate(c, s, a, t);
    } else if UpdateAction(c, s, a, t) {
      SizeUpdate(c, s, a, t);
    } else if RescaleAction(c, s, a, t) {
      SizeRescale(c, s, a, t);
    } else {
      SizeElsewhere(c, s, a, t);
    }
  }
}
