/**
  The operator loop is never stuck: from every state a cooperative run can come to, once the
  cluster has caught up, some step of the loop is possible. So from every cluster at rest an
  endless cooperative run starts.
*/
module CooperativeRuns {
  import opened Base
  import opened Sequences
  import opened Autoscaler
  import opened Pods
  import opened ControlLoop
  import opened Traces
  import opened RolloutSafety
  import opened RolloutProgress
  import opened RolloutTermination
  import opened HandoffProgress

  // ----- the states of such a run -----

  /** The part of a cycle in which the copy of the StatefulSet may still be written from. */
  predicate MayWriteSts(pc: Pc) {
    pc in {Reconciled, Reported, Selecting, Surging, Rescaling, PreHook, Listing, ScaleDraining, SliceChecked}
  }

  ghost predicate InOrder(s: State) {
    var l := s.loop;
    && s.sts.Some? && Size(s) >= 1 && PodsInPlace(s.pods)
    && (l.pc in {Started, Preparing, Reconciled} ==> l.cur == s.eds)
    && (l.pc == PreHook ==> l.cur.version == s.eds.version)
    && (MayWriteSts(l.pc) ==> s.sts == Some(l.sts))
    && (InHook(l) && HookOperation(l).Some? ==> l.sent <= |HookOperation(l).value.operation.indexReplicas|)
    && (l.pc == SliceChecked ==> l.todo != [])
    && (Updating(l.pc) ==> forall o :: o in s.pods ==> 0 <= o < Size(s))
  }

  /** The cluster has caught up with the replica count. */
  ghost predicate CaughtUp(s: State) {
    s.pods.Keys == Below(Size(s))
  }

  /** What such a step leaves to be shown once it is known to be one of its group. */
  ghost predicate Goes(x: Context, s: State, a: Action, t: State) {
    LoopMoves(a) && Cooperative(x, s, a, t) && InOrder(t)
  }

  lemma PlainlyGoes(x: Context, s: State, a: Action, t: State)
    requires InOrder(t) && t.eds.replicas == s.eds.replicas && LoopMoves(a) && !a.Fail? && !a.SelectPod?
    ensures Goes(x, s, a, t)
  {
    hide InOrder;
  }

  lemma CaughtUpIsStable(s: State)
    requires InOrder(s) && CaughtUp(s)
    ensures Stable(s)
  {
    InPlaceReady(s.pods);
    AllReadyIsStable(s);
  }

  // ----- the steps of the loop -----

  lemma CycleGoes(c: Settings, x: Context, s: State) returns (a: Action, t: State)
    requires InOrder(s) && s.loop.pc in {Idle, Started, Preparing}
    ensures OperateAction(c, s, a, t) && Goes(x, s, a, t)
  {
    hide Desired, PodsInPlace, Goes;
    match s.loop.pc {
      case Idle => a, t := Start, s.(loop := s.loop.(pc := Started, cur := s.eds));
      case Started => a, t := Prepare, s.(loop := s.loop.(pc := Preparing, sr := s.eds));
      case Preparing => a, t := Reconcile(false), s.(loop := s.loop.(pc := Reconciled, sts := s.sts.value));
    }
    PlainlyGoes(x, s, a, t);
  }

  lemma ReportGoes(c: Settings, x: Context, s: State) returns (a: Action, t: State)
    requires InOrder(s) && s.loop.pc == Reconciled
    ensures OperateAction(c, s, a, t) && Goes(x, s, a, t)
  {
    hide PodsInPlace, Goes;
    a := Report(false);
    t := s.(loop := s.loop.(pc := Reported),
            eds := if s.loop.cur.statusReplicas == s.loop.sts.replicas then s.eds
                   else s.eds.(version := s.eds.version + 1, statusReplicas := s.loop.sts.replicas));
    PlainlyGoes(x, s, a, t);
  }

  lemma PodsGo(c: Settings, x: Context, s: State) returns (a: Action, t: State)
    requires InOrder(s) && s.loop.pc == Reported
    ensures OperateAction(c, s, a, t) && Goes(x, s, a, t)
  {
    hide Desired, PodsInPlace, Goes;
    var desired := Desired(c, s.eds);
    a := Operate;
    t := if desired.Some? && s.loop.sts.replicas < desired.value
         then s.(loop := s.loop.(pc := Rescaling, sr := s.eds, up := true))
         else s.(loop := s.loop.(pc := Selecting, sr := s.eds));
    PlainlyGoes(x, s, a, t);
  }

  lemma SelectGoes(c: Settings, x: Context, s: State) returns (a: Action, t: State)
    requires InOrder(s) && CaughtUp(s) && s.loop.pc == Selecting
    ensures UpdateAction(c, s, a, t) && Goes(x, s, a, t)
  {
    var view := View(s.pods, Size(s));
    var seen := x.(desired := Desired(c, s.loop.sr), replicas := s.loop.sts.replicas);
    var r := PrioritizedView(seen, view);
    ViewMembers(s.pods, Size(s));
    var pod := PodToUpdate(r);
    a, t := SelectPod(seen, view, r), AfterSelection(c, s, pod);
    hide View, Prioritized, CacheShowsMarks, AllNumbered, InStep, PodToUpdate, Desired, UpdateAction;
    SelectHolds(c, s, seen, view, r);
    SelectionInOrder(c, s, pod);
    hide InOrder;
  }

  lemma SelectionInOrder(c: Settings, s: State, pod: Option<Pod>)
    requires InOrder(s) && CaughtUp(s) && s.loop.pc == Selecting
    ensures InOrder(AfterSelection(c, s, pod))
  {
    hide PodsInPlace, Desired;
  }

  lemma SurgeGoes(c: Settings, x: Context, s: State) returns (a: Action, t: State)
    requires InOrder(s) && s.loop.pc == Surging
    ensures UpdateAction(c, s, a, t) && Goes(x, s, a, t)
  {
    hide PodsInPlace, Goes;
    var more := s.loop.sts.replicas + 1;
    a := Surge;
    t := s.(sts := Some(Sts(s.sts.value.version + 1, more)),
            loop := s.loop.(pc := AwaitSurge, sts := s.loop.sts.(replicas := more)));
    PlainlyGoes(x, s, a, t);
  }

  lemma SurgedGoes(c: Settings, x: Context, s: State) returns (a: Action, t: State)
    requires InOrder(s) && s.loop.pc == AwaitSurge && Stable(s)
    ensures UpdateAction(c, s, a, t) && Goes(x, s, a, t)
  {
    hide PodsInPlace, Goes, Stable;
    a, t := SurgeStable, s.(loop := s.loop.(pc := Marking), losses := 0);
    PlainlyGoes(x, s, a, t);
  }

  /** The selected Pod is one of those there are. */
  ghost predicate SelectedIsThere(s: State) {
    s.loop.pod.Some? && s.loop.pod.value.ordinal.Some? && s.loop.pod.value.ordinal.value in s.pods
  }

  lemma MarkGoes(c: Settings, x: Context, s: State) returns (a: Action, t: State)
    requires InOrder(s) && SelectedIsThere(s) && s.loop.pc == Marking
    ensures UpdateAction(c, s, a, t) && Goes(x, s, a, t)
  {
    var o := s.loop.pod.value.ordinal.value;
    var pods := if s.loop.pod.value.draining then s.pods else s.pods[o := s.pods[o].(draining := true)];
    assert PodsInPlace(pods);
    hide Goes, PodsInPlace;
    a, t := Mark, s.(loop := s.loop.(pc := DrainingPod), pods := pods);
    PlainlyGoes(x, s, a, t);
  }

  lemma DeleteGoes(c: Settings, x: Context, s: State) returns (a: Action, t: State)
    requires InOrder(s) && SelectedIsThere(s) && s.loop.pc in {DrainingPod, Deleting}
    ensures UpdateAction(c, s, a, t) && Goes(x, s, a, t)
  {
    var o := s.loop.pod.value.ordinal.value;
    assert PodsInPlace(s.pods - {o});
    hide Goes, PodsInPlace;
    if s.loop.pc == DrainingPod {
      a, t := DrainPod, s.(loop := s.loop.(pc := Deleting));
    } else {
      a, t := Delete, s.(loop := s.loop.(pc := FinalHook, sent := 0), pods := s.pods - {o});
    }
    PlainlyGoes(x, s, a, t);
  }

  lemma UpdatedPodIsThere(x: Context, d: int, s: State)
    requires PlaceInv(x, d, s) && Updating(s.loop.pc)
    ensures SelectedIsThere(s)
  {
  }

  lemma UpdateGoes(c: Settings, x: Context, d: int, s: State) returns (a: Action, t: State)
    requires InOrder(s) && CaughtUp(s) && PlaceInv(x, d, s) && Updating(s.loop.pc)
    ensures UpdateAction(c, s, a, t) && Goes(x, s, a, t)
  {
    CaughtUpIsStable(s);
    UpdatedPodIsThere(x, d, s);
    hide InOrder, CaughtUp, Stable, PlaceInv, UpdateAction, Goes, SelectedIsThere;
    match s.loop.pc
    case Surging => a, t := SurgeGoes(c, x, s);
    case AwaitSurge => a, t := SurgedGoes(c, x, s);
    case Marking => a, t := MarkGoes(c, x, s);
    case _ => a, t := DeleteGoes(c, x, s);
  }

  lemma RefreshGoes(c: Settings, x: Context, s: State) returns (a: Action, t: State)
    requires InOrder(s) && s.loop.pc == Rescaling
    ensures RescaleAction(c, s, a, t) && Goes(x, s, a, t)
  {
    hide PodsInPlace, Desired, Goes;
    var l, desired := BeginRescale(s), Desired(c, s.eds);
    a := Refresh;
    t := s.(loop := if desired.None? || desired.value == l.sts.replicas then AfterRescale(l)
                    else if desired.value > l.sts.replicas then l.(pc := Listing, target := desired.value)
                    else l.(pc := PreHook));
    PlainlyGoes(x, s, a, t);
  }

  lemma SettledGoes(c: Settings, x: Context, s: State) returns (a: Action, t: State)
    requires InOrder(s) && s.loop.pc in {AwaitResize, AwaitStable} && Stable(s)
    ensures RescaleAction(c, s, a, t) && Goes(x, s, a, t)
  {
    hide PodsInPlace, Goes, Stable;
    if s.loop.pc == AwaitResize {
      a, t := ResizeStable, s.(loop := AfterRescale(s.loop));
    } else {
      a, t := AllStable, s.(loop := s.loop.(pc := FinalHook, sent := 0));
    }
    PlainlyGoes(x, s, a, t);
  }

  lemma ResizeGoes(c: Settings, x: Context, s: State) returns (a: Action, t: State)
    requires InOrder(s) && s.loop.pc == ScaleDraining && s.loop.todo == [] && s.loop.target >= 1
    ensures RescaleAction(c, s, a, t) && Goes(x, s, a, t)
  {
    hide PodsInPlace, Goes;
    a := Resize;
    t := s.(sts := Some(Sts(s.sts.value.version + 1, s.loop.target)),
            loop := s.loop.(pc := AwaitResize, sts := s.loop.sts.(replicas := s.loop.target)));
    PlainlyGoes(x, s, a, t);
  }

  lemma ListGoes(c: Settings, x: Context, s: State) returns (a: Action, t: State)
    requires InOrder(s) && CaughtUp(s) && s.loop.pc == Listing
    ensures DrainAction(c, s, a, t) && Goes(x, s, a, t)
  {
    var view := View(s.pods, Size(s));
    ViewSorted(s.pods, Size(s));
    hide View, IsSortOf, AllNumbered, Below, CaughtUp, PodsInPlace;
    var slice := if 0 <= s.loop.target < |view| then view[s.loop.target..] else [];
    a, t := ListPods(view, view), s.(loop := s.loop.(pc := ScaleDraining, slice := slice, todo := slice));
    assert ListStep(s, view, view, t);
    ListedInOrder(s, slice, t);
    hide InOrder, Goes, ListStep;
    PlainlyGoes(x, s, a, t);
  }

  lemma ListedInOrder(s: State, slice: seq<Pod>, t: State)
    requires InOrder(s) && s.loop.pc == Listing
    requires t == s.(loop := s.loop.(pc := ScaleDraining, slice := slice, todo := slice))
    ensures InOrder(t)
  {
    hide PodsInPlace;
  }

  lemma DrainGoes(c: Settings, x: Context, s: State) returns (a: Action, t: State)
    requires InOrder(s) && Stable(s) && !DrainAborts(c, s.loop.cur, s.eds)
    requires s.loop.pc in {ScaleDraining, SliceChecked} && s.loop.todo != []
    ensures DrainAction(c, s, a, t) && Goes(x, s, a, t)
  {
    hide Stable, PodsInPlace, DrainAborts, Goes;
    var next, rest := s.loop.todo[0], s.loop.todo[1..];
    if s.loop.pc == ScaleDraining {
      a, t := CheckSlice, s.(loop := s.loop.(pc := SliceChecked));
    } else if next.pending {
      a := SkipPending;
      t := s.(loop := s.loop.(pc := ScaleDraining, todo := rest, skipped := s.loop.skipped + [next]));
    } else {
      a := DrainNext;
      t := s.(loop := s.loop.(pc := ScaleDraining, todo := rest, drained := s.loop.drained + [next]));
    }
    PlainlyGoes(x, s, a, t);
  }

  lemma SendGoes(x: Context, s: State) returns (a: Action, t: State)
    requires InOrder(s) && InHook(s.loop) && HookOperation(s.loop).Some?
    requires s.loop.sent < |HookOperation(s.loop).value.operation.indexReplicas|
    ensures HookAction(s, a, t) && Goes(x, s, a, t)
  {
    hide PodsInPlace, Goes;
    var l, p := s.loop, HookOperation(s.loop).value;
    a := SendIndex;
    t := s.(loop := l.(sent := l.sent + 1), newest := Max(s.newest, p.id), accepted := s.accepted + {(p.id, l.sent)});
    assert HookOperation(t.loop) == HookOperation(s.loop);
    hide HookOperation;
    PlainlyGoes(x, s, a, t);
  }

  lemma HookEndGoes(x: Context, s: State) returns (a: Action, t: State)
    requires InOrder(s) && InHook(s.loop) && !RemovalConflicts(s)
    requires var p := HookOperation(s.loop); p.Some? ==> s.loop.sent == |p.value.operation.indexReplicas|
    ensures HookAction(s, a, t) && Goes(x, s, a, t)
  {
    hide PodsInPlace, Goes;
    if HookOperation(s.loop).None? {
      a, t := SkipHook, s.(loop := AfterHook(s.loop));
    } else {
      a := RemoveAnnotation;
      t := s.(loop := AfterHook(s.loop), eds := s.eds.(version := s.eds.version + 1, pending := None));
    }
    hide HookOperation;
    PlainlyGoes(x, s, a, t);
  }

  /** A hook sends and removes the annotation. */
  lemma HookGoes(x: Context, s: State) returns (a: Action, t: State)
    requires InOrder(s) && InHook(s.loop) && !RemovalConflicts(s)
    ensures HookAction(s, a, t) && Goes(x, s, a, t)
  {
    var p := HookOperation(s.loop);
    assert p.Some? ==> s.loop.sent <= |p.value.operation.indexReplicas|;
    hide InOrder, HookAction, Goes, RemovalConflicts, HookOperation;
    if p.Some? && s.loop.sent < |p.value.operation.indexReplicas| {
      a, t := SendGoes(x, s);
    } else {
      a, t := HookEndGoes(x, s);
    }
  }

  /** A removal that cannot succeed ends the cycle. */
  lemma ConflictGoes(c: Settings, x: Context, s: State) returns (a: Action, t: State)
    requires InOrder(s) && RemovalConflicts(s)
    ensures OperateAction(c, s, a, t) && Goes(x, s, a, t)
  {
    hide PodsInPlace;
    a, t := Fail, s.(loop := s.loop.(pc := Idle));
  }

  lemma OperateMoves(c: Settings, x: Context, s: State) returns (a: Action, t: State)
    requires CrdMinima(c) && InOrder(s)
    requires s.loop.pc in {Idle, Started, Preparing, Reconciled, Reported} || RemovalConflicts(s)
    ensures Next(c, s, a, t) && Goes(x, s, a, t)
  {
    hide InOrder, OperateAction, Goes, Next;
    match s.loop.pc {
      case Reconciled => a, t := ReportGoes(c, x, s);
      case Reported => a, t := PodsGo(c, x, s);
      case FinalHook => a, t := ConflictGoes(c, x, s);
      case _ => a, t := CycleGoes(c, x, s);
    }
    ByOperate(c, s, a, t);
  }

  lemma UpdateMoves(c: Settings, x: Context, d: int, s: State) returns (a: Action, t: State)
    requires CrdMinima(c) && InOrder(s) && CaughtUp(s) && PlaceInv(x, d, s)
    requires s.loop.pc == Selecting || Updating(s.loop.pc)
    ensures Next(c, s, a, t) && Goes(x, s, a, t)
  {
    hide InOrder, CaughtUp, PlaceInv, UpdateAction, Goes, Next;
    if s.loop.pc == Selecting {
      a, t := SelectGoes(c, x, s);
    } else {
      a, t := UpdateGoes(c, x, d, s);
    }
    ByUpdate(c, s, a, t);
  }

  lemma DrainMoves(c: Settings, x: Context, d: int, s: State) returns (a: Action, t: State)
    requires CrdMinima(c) && InOrder(s) && CaughtUp(s) && CopiesAsk(d, s)
    requires s.loop.pc in {Listing, ScaleDraining, SliceChecked} && (s.loop.pc == ScaleDraining ==> s.loop.todo != [])
    ensures Next(c, s, a, t) && Goes(x, s, a, t)
  {
    CaughtUpIsStable(s);
    if s.loop.pc == Listing {
      hide InOrder, CaughtUp, DrainAction, Goes, Next, Stable;
      a, t := ListGoes(c, x, s);
    } else {
      UnchangedSpecGoesOn(c, d, s.loop.cur, s.eds);
      assert s.loop.todo != [];
      hide InOrder, CaughtUp, CopiesAsk, DrainAborts, DrainAction, Goes, Next, Stable;
      a, t := DrainGoes(c, x, s);
    }
    ByDrain(c, s, a, t);
  }

  lemma RescaleMoves(c: Settings, x: Context, s: State) returns (a: Action, t: State)
    requires CrdMinima(c) && InOrder(s) && CaughtUp(s)
    requires || s.loop.pc in {Rescaling, AwaitResize, AwaitStable}
             || (s.loop.pc == ScaleDraining && s.loop.todo == [] && s.loop.target >= 1)
    ensures Next(c, s, a, t) && Goes(x, s, a, t)
  {
    CaughtUpIsStable(s);
    hide InOrder, CaughtUp, RescaleAction, Goes, Next, Stable;
    match s.loop.pc {
      case Rescaling => a, t := RefreshGoes(c, x, s);
      case ScaleDraining => a, t := ResizeGoes(c, x, s);
      case _ => a, t := SettledGoes(c, x, s);
    }
    ByRescale(c, s, a, t);
  }

  lemma HookMoves(c: Settings, x: Context, s: State) returns (a: Action, t: State)
    requires CrdMinima(c) && InOrder(s) && InHook(s.loop)
    ensures Next(c, s, a, t) && Goes(x, s, a, t)
  {
    hide InOrder, HookAction, Goes, Next, RemovalConflicts;
    if RemovalConflicts(s) {
      a, t := OperateMoves(c, x, s);
    } else {
      a, t := HookGoes(x, s);
      ByHook(c, s, a, t);
    }
  }

  lemma TargetIsPositive(x: Context, d: int, s: State)
    requires PlaceInv(x, d, s) && d >= 1 && s.loop.pc == ScaleDraining
    ensures s.loop.target >= 1
  {
    hide Outdated;
  }

  lemma SomeMove(c: Settings, x: Context, d: int, s: State) returns (a: Action, t: State)
    requires CrdMinima(c) && InOrder(s) && CaughtUp(s) && CopiesAsk(d, s) && PlaceInv(x, d, s) && d >= 1
    ensures Next(c, s, a, t) && Goes(x, s, a, t)
  {
    hide InOrder, CaughtUp, PlaceInv, CopiesAsk, Next, Goes;
    match s.loop.pc
    case Selecting => a, t := UpdateMoves(c, x, d, s);
    case Listing => a, t := DrainMoves(c, x, d, s);
    case SliceChecked => a, t := DrainMoves(c, x, d, s);
    case ScaleDraining =>
      TargetIsPositive(x, d, s);
      if s.loop.todo == [] {
        a, t := RescaleMoves(c, x, s);
      } else {
        a, t := DrainMoves(c, x, d, s);
      }
    case Rescaling => a, t := RescaleMoves(c, x, s);
    case AwaitResize => a, t := RescaleMoves(c, x, s);
    case AwaitStable => a, t := RescaleMoves(c, x, s);
    case PreHook => a, t := HookMoves(c, x, s);
    case FinalHook => a, t := HookMoves(c, x, s);
    case _ =>
      if Updating(s.loop.pc) {
        a, t := UpdateMoves(c, x, d, s);
      } else {
        a, t := OperateMoves(c, x, s);
      }
  }

  /** Main result. Where the cluster has caught up, the loop can take a step that cooperates. */
  lemma LoopIsNeverStuck(c: Settings, x: Context, d: int, s: State) returns (a: Action, t: State)
    requires CrdMinima(c) && CoopInv(x, d, s) && InOrder(s) && CaughtUp(s)
    ensures Next(c, s, a, t) && Cooperative(x, s, a, t) && LoopMoves(a)
    ensures InOrder(t) && CoopInv(x, d, t)
  {
    hide InOrder, CaughtUp, PlaceInv, CopiesAsk, StsCopyCurrent, Next, LoopMoves, Cooperative;
    a, t := SomeMove(c, x, d, s);
    hide CoopInv;
    CoopStep(c, x, d, s, a, t);
  }

  /** The cluster can catch up, as a cooperating one does, at any point. */
  lemma ClusterGoes(c: Settings, x: Context, node: string, d: int, s: State) returns (a: Action, t: State)
    requires CrdMinima(c) && CoopInv(x, d, s) && InOrder(s) && GoodNode(x, node)
    ensures Next(c, s, a, t) && Cooperative(x, s, a, t)
    ensures InOrder(t) && CoopInv(x, d, t) && CaughtUp(t) && a.EnvPods?
  {
    hide CoopInv, Next, InOrder, CaughtUp, EnvAction, Refilled, GoodNode, Cooperative;
    a := EnvPods(Refilled(x, node, s.pods, Size(s)));
    t := RefillStep(x, node, s);
    ByEnv(c, s, a, t);
    CatchesUp(x, node, s, t);
    CoopStep(c, x, d, s, a, t);
  }

  lemma CatchesUp(x: Context, node: string, s: State, t: State)
    requires InOrder(s) && GoodNode(x, node)
    requires t == s.(pods := Refilled(x, node, s.pods, Size(s)), losses := t.losses)
    ensures InOrder(t) && CaughtUp(t) && Cooperative(x, s, EnvPods(t.pods), t)
  {
    RefilledInPlace(x, node, s.pods, Size(s));
    hide Refilled, GoodNode, PodsInPlace;
    if Updating(s.loop.pc) && Selected(x, s.loop, s.pods) {
      assert s.loop.pod.value.ordinal.value in s.pods;
    }
    hide Outdated;
  }

  lemma ByEnv(c: Settings, s: State, a: Action, t: State)
    requires CrdMinima(c) && EnvAction(s, a, t)
    ensures Next(c, s, a, t)
  {
    hide EnvAction;
  }

  // ----- an endless run -----

  ghost predicate Live(x: Context, d: int, s: State) {
    CoopInv(x, d, s) && InOrder(s)
  }

  /** The loop takes every step it can; where it might have to wait the cluster catches up first. */
  ghost predicate Chosen(c: Settings, x: Context, d: int, s: State, a: Action, t: State)
    requires CrdMinima(c)
  {
    && Next(c, s, a, t) && Cooperative(x, s, a, t) && Live(x, d, t)
    && if CaughtUp(s) then LoopMoves(a) else a.EnvPods? && CaughtUp(t)
  }

  lemma ChoiceExists(c: Settings, x: Context, node: string, d: int, s: State) returns (a: Action, t: State)
    requires CrdMinima(c) && Live(x, d, s) && GoodNode(x, node)
    ensures Chosen(c, x, d, s, a, t)
  {
    hide CoopInv, InOrder, CaughtUp, Next, Cooperative, LoopMoves, GoodNode;
    if CaughtUp(s) {
      a, t := LoopIsNeverStuck(c, x, d, s);
    } else {
      a, t := ClusterGoes(c, x, node, d, s);
    }
  }

  datatype Moved = Moved(action: Action, state: State)

  ghost function Choice(c: Settings, x: Context, node: string, d: int, s: State): (r: Moved)
    requires CrdMinima(c) && Live(x, d, s) && GoodNode(x, node)
    ensures Chosen(c, x, d, s, r.action, r.state)
  {
    hide *;
    assert exists r: Moved :: Chosen(c, x, d, s, r.action, r.state) by {
      var a, t := ChoiceExists(c, x, node, d, s);
      assert Chosen(c, x, d, s, Moved(a, t).action, Moved(a, t).state);
    }
    var r: Moved :| Chosen(c, x, d, s, r.action, r.state);
    r
  }

  ghost function Reached(c: Settings, x: Context, node: string, d: int, s: State, i: nat): (t: State)
    requires CrdMinima(c) && Live(x, d, s) && GoodNode(x, node)
    ensures Live(x, d, t)
  {
    hide CoopInv, InOrder, Next, Cooperative, GoodNode;
    if i == 0 then s else Choice(c, x, node, d, Reached(c, x, node, d, s, i - 1)).state
  }

  /**
    Main result. From every cluster at rest with spec.replicas set there is an endless cooperative
    run in which the loop keeps taking steps and nobody else writes the EDS, whatever operation is
    pending.
  */
  lemma CooperativeRunsExist(c: Settings, x: Context, node: string, d: int, s: State)
    returns (run: nat -> State, actions: nat -> Action)
    requires CrdMinima(c) && GoodNode(x, node) && s.loop.pc == Idle && s.sts.Some? && Size(s) >= 1
    requires PodsInPlace(s.pods) && Asks(s.eds, d) && d >= 1
    ensures run(0) == s && CooperativeRun(c, x, run, actions) && LoopGoesOn(actions)
    ensures UndisturbedRun(c, run, actions)
  {
    assert Live(x, d, s);
    hide Live, GoodNode, Next, Cooperative, CaughtUp, LoopMoves, Asks, PodsInPlace;
    run := (i: nat) => Reached(c, x, node, d, s, i);
    actions := (i: nat) => Choice(c, x, node, d, Reached(c, x, node, d, s, i)).action;
    forall i: nat ensures Chosen(c, x, d, run(i), actions(i), run(i + 1)) {
    }
    forall i: nat ensures MovesFrom(actions, i) {
      assert Chosen(c, x, d, run(i), actions(i), run(i + 1));
      assert Chosen(c, x, d, run(i + 1), actions(i + 1), run(i + 2));
      assert LoopMoves(actions(i)) || LoopMoves(actions(i + 1));
    }
    ChosenCooperates(c, x, d, run, actions);
  }

  lemma ChosenCooperates(c: Settings, x: Context, d: int, run: nat -> State, actions: nat -> Action)
    requires CrdMinima(c) && forall i: nat :: Chosen(c, x, d, run(i), actions(i), run(i + 1))
    ensures CooperativeRun(c, x, run, actions) && UndisturbedRun(c, run, actions)
  {
    hide Next, Cooperative, Live, CaughtUp, LoopMoves, Undisturbed;
    forall i: nat ensures Undisturbed(run(i), actions(i)) {
      assert Chosen(c, x, d, run(i), actions(i), run(i + 1));
      CooperativeIsUndisturbed(x, run(i), actions(i), run(i + 1));
    }
  }

  lemma CooperativeIsUndisturbed(x: Context, s: State, a: Action, t: State)
    requires Cooperative(x, s, a, t) && (LoopMoves(a) || a.EnvPods?)
    ensures Undisturbed(s, a)
  {
  }
}
