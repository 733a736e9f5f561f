/**
  Every cooperative run finishes the rollout. Each step of the operator loop lowers a rank, first
  the number of outdated Pods, then the distance to the desired count, then the way to go in the
  cycle, and nothing the cluster does raises it.
*/
module RolloutTermination {
  import opened Base
  import opened Sequences
  import opened Autoscaler
  import opened Pods
  import opened Metrics
  import opened ControlLoop
  import opened RolloutSafety
  import opened HandoffSafety
  import opened RolloutProgress
  import opened SizeSafety

  // ----- cooperative steps -----

  /** The Pod a rolling update is at. */
  ghost predicate Selected(x: Context, l: Loop, pods: map<int, Pod>) {
    l.pod.Some? && l.pod.value.ordinal.Some? && l.pod.value.ordinal.value in Outdated(x, pods)
  }

  predicate Updating(pc: Pc) {
    pc in {Surging, AwaitSurge, Marking, DrainingPod, Deleting}
  }

  /** The final hook is to remove an annotation from an older copy of the EDS than the stored one. */
  predicate RemovalConflicts(s: State) {
    && s.loop.pc == FinalHook && HookOperation(s.loop).Some?
    && s.loop.sent >= |HookOperation(s.loop).value.operation.indexReplicas|
    && s.eds.version != s.loop.sr.version
  }

  /**
    spec.replicas is left alone, the cache is up to date when a Pod is selected, no Pod becomes
    outdated, the Pod being updated does not change under the loop, and no call fails but the removal
    that cannot succeed: after a scale-in that applied an operation, the one in the final hook.
  */
  ghost predicate Cooperative(x: Context, s: State, a: Action, t: State) {
    && t.eds.replicas == s.eds.replicas
    && match a
       case Fail => RemovalConflicts(s)
       case EnvPods(pods) =>
         && Outdated(x, pods) <= Outdated(x, s.pods)
         && (Updating(s.loop.pc) && Selected(x, s.loop, s.pods) ==> Selected(x, s.loop, pods))
       case SelectPod(seen, view, _) =>
         seen == x.(desired := seen.desired, replicas := seen.replicas) && InStep(s.pods, view)
       case _ => true
  }

  // ----- what cooperative runs keep -----

  ghost predicate Asks(e: Eds, d: int) {
    e.replicas == Some(d)
  }

  /** How the size, the desired count d and the outdated Pods relate at each point of a cycle. */
  ghost predicate PlaceInv(x: Context, d: int, s: State) {
    var n, l := Size(s), s.loop;
    match l.pc
    case Selecting => n >= d
    case Rescaling => if l.up then n < d else n >= d && Outdated(x, s.pods) == {}
    case Surging => n == d && Selected(x, l, s.pods)
    case AwaitSurge => n > d && Selected(x, l, s.pods)
    case Marking => n > d && Selected(x, l, s.pods)
    case DrainingPod => n > d && Selected(x, l, s.pods)
    case Deleting => n > d && Selected(x, l, s.pods)
    case PreHook => n > d && Outdated(x, s.pods) == {}
    case Listing => Targeted(x, d, s)
    case ScaleDraining => Targeted(x, d, s)
    case SliceChecked => Targeted(x, d, s)
    case _ => true
  }

  ghost predicate Targeted(x: Context, d: int, s: State) {
    || (Size(s) < d && s.loop.target == d)
    || (Size(s) > d && s.loop.target == Size(s) - 1 && Outdated(x, s.pods) == {})
  }

  ghost predicate CopiesAsk(d: int, s: State) {
    && Asks(s.eds, d)
    && (HoldsCur(s.loop.pc) ==> Asks(s.loop.cur, d))
    && (HoldsSr(s.loop.pc) || s.loop.pc == Preparing ==> Asks(s.loop.sr, d))
  }

  ghost predicate CoopInv(x: Context, d: int, s: State) {
    d >= 1 && s.sts.Some? && StsCopyCurrent(s) && CopiesAsk(d, s) && PlaceInv(x, d, s)
  }

  /** At the desired count with no outdated Pod. */
  ghost predicate Finished(x: Context, d: int, s: State) {
    Size(s) == d && Outdated(x, s.pods) == {}
  }

  // ----- the rank -----

  datatype Rank = Rank(outdated: nat, distance: nat, place: nat, left: nat)

  /** The way to go until the size or the Pods change next. */
  function Place(pc: Pc): nat {
    match pc
    case AwaitResize => 19
    case AwaitStable => 18
    case FinalHook => 17
    case Idle => 16
    case Started => 15
    case Preparing => 14
    case Reconciled => 13
    case Reported => 12
    case Selecting => 11
    case Rescaling => 10
    case PreHook => 9
    case Listing => 8
    case ScaleDraining => 7
    case SliceChecked => 7
    case Surging => 5
    case AwaitSurge => 4
    case Marking => 3
    case DrainingPod => 2
    case Deleting => 1
  }

  /** With outdated Pods left it only matters whether the size has reached the desired count. */
  function Distance(outdated: nat, n: int, d: int): nat {
    if outdated > 0 then (if n < d then 1 else 0)
    else if n < d then d - n else n - d
  }

  /** The indices a hook has yet to send. */
  function ToSend(l: Loop): nat {
    if HookOperation(l).None? then 0 else Max(0, |HookOperation(l).value.operation.indexReplicas| - l.sent)
  }

  function Left(l: Loop): nat {
    if l.pc == ScaleDraining then 2 * |l.todo| + 1
    else if l.pc == SliceChecked then 2 * |l.todo|
    else if InHook(l) then ToSend(l)
    else 0
  }

  ghost function RankOf(x: Context, d: int, s: State): Rank {
    var k := |Outdated(x, s.pods)|;
    Rank(k, Distance(k, Size(s), d), Place(s.loop.pc), Left(s.loop))
  }

  predicate RankBelow(a: Rank, b: Rank) {
    || a.outdated < b.outdated
    || (a.outdated == b.outdated
        && (a.distance < b.distance
            || (a.distance == b.distance && (a.place < b.place || (a.place == b.place && a.left < b.left)))))
  }

  // ----- steps that leave size and Pods alone -----

  ghost predicate SameCluster(s: State, t: State) {
    t.pods == s.pods && Size(t) == Size(s)
  }

  lemma PlaceDecides(x: Context, d: int, s: State, t: State)
    requires SameCluster(s, t)
    requires || Place(t.loop.pc) < Place(s.loop.pc)
             || (Place(t.loop.pc) == Place(s.loop.pc) && Left(t.loop) < Left(s.loop))
    ensures RankBelow(RankOf(x, d, t), RankOf(x, d, s))
  {
  }

  lemma CoopOperate(c: Settings, x: Context, d: int, s: State, a: Action, t: State)
    requires OperateAction(c, s, a, t) && CoopInv(x, d, s) && Cooperative(x, s, a, t)
    ensures CopiesAsk(d, t) && PlaceInv(x, d, t) && t.sts.Some?
    ensures RankBelow(RankOf(x, d, t), RankOf(x, d, s))
  {
    hide Outdated, RankOf;
    assert Asks(s.eds, d) ==> Desired(c, s.eds) == Some(d);
    hide Desired;
    PlaceDecides(x, d, s, t);
  }

  // ----- the rolling update -----

  lemma CoopSelect(c: Settings, x: Context, d: int, s: State, a: Action, t: State)
    requires a.SelectPod? && SelectStep(c, s, a.x, a.view, a.prioritized, t)
    requires CoopInv(x, d, s) && Cooperative(x, s, a, t)
    ensures CopiesAsk(d, t) && PlaceInv(x, d, t) && RankBelow(RankOf(x, d, t), RankOf(x, d, s))
  {
    ChosenInStep(x, a.x, s.pods, a.view, a.prioritized);
    hide Outdated, RankOf, Prioritized, CacheShowsMarks, AllNumbered, InStep;
    assert Asks(s.loop.sr, d) ==> Desired(c, s.loop.sr) == Some(d);
    hide Desired;
    PlaceDecides(x, d, s, t);
  }

  lemma CoopSurge(x: Context, d: int, s: State, t: State)
    requires SurgeStep(s, t) && CoopInv(x, d, s)
    ensures CopiesAsk(d, t) && PlaceInv(x, d, t) && RankBelow(RankOf(x, d, t), RankOf(x, d, s))
    ensures !Finished(x, d, s)
  {
    assert Outdated(x, s.pods) != {};
    hide Outdated;
  }

  lemma MarkedStaysOutdated(x: Context, pods: map<int, Pod>, o: int)
    requires o in Outdated(x, pods)
    ensures Outdated(x, pods[o := pods[o].(draining := true)]) == Outdated(x, pods)
  {
  }

  lemma CoopMark(x: Context, d: int, s: State, t: State)
    requires MarkStep(s, t) && CoopInv(x, d, s)
    ensures CopiesAsk(d, t) && PlaceInv(x, d, t) && RankBelow(RankOf(x, d, t), RankOf(x, d, s))
    ensures Outdated(x, t.pods) == Outdated(x, s.pods)
  {
    MarkedStaysOutdated(x, s.pods, s.loop.pod.value.ordinal.value);
    hide Outdated;
  }

  lemma CoopDelete(x: Context, d: int, s: State, t: State)
    requires DeleteStep(s, t) && CoopInv(x, d, s)
    ensures CopiesAsk(d, t) && PlaceInv(x, d, t) && RankBelow(RankOf(x, d, t), RankOf(x, d, s))
    ensures !Finished(x, d, s)
  {
    DeletedIsGone(x, s.pods, s.loop.pod.value.ordinal.value);
    hide Outdated;
  }

  lemma DeletedIsGone(x: Context, pods: map<int, Pod>, o: int)
    requires o in Outdated(x, pods)
    ensures Outdated(x, pods - {o}) == Outdated(x, pods) - {o}
    ensures |Outdated(x, pods - {o})| == |Outdated(x, pods)| - 1
  {
    assert Outdated(x, pods - {o}) == Outdated(x, pods) - {o};
    hide Outdated;
  }

  lemma CoopUpdate(c: Settings, x: Context, d: int, s: State, a: Action, t: State)
    requires UpdateAction(c, s, a, t) && CoopInv(x, d, s) && Cooperative(x, s, a, t)
    ensures CopiesAsk(d, t) && PlaceInv(x, d, t) && t.sts.Some? && RankBelow(RankOf(x, d, t), RankOf(x, d, s))
    ensures Finished(x, d, s) ==> Finished(x, d, t)
  {
    match a
    case SelectPod(_, _, _) =>
      CoopSelect(c, x, d, s, a, t);
      hide SelectStep, Outdated, RankOf, PlaceInv, CopiesAsk;
      UpdateFrames(c, s, a, t);
      OnlySurgeSizes(c, s, a, t);
      OnlyMarkAndDelete(c, s, a, t);
    case Surge => CoopSurge(x, d, s, t);
    case Mark => CoopMark(x, d, s, t);
    case Delete => CoopDelete(x, d, s, t);
    case _ =>
      hide Outdated, RankOf, Stable;
      PlaceDecides(x, d, s, t);
  }

  lemma OnlyMarkAndDelete(c: Settings, s: State, a: Action, t: State)
    requires UpdateAction(c, s, a, t) && !a.Mark? && !a.Delete?
    ensures t.pods == s.pods
  {
    hide Prioritized, CacheShowsMarks, AllNumbered, Stable, Desired;
  }

  // ----- the rescale -----

  lemma CoopRefresh(c: Settings, x: Context, d: int, s: State, t: State)
    requires RefreshStep(c, s, t) && CoopInv(x, d, s)
    ensures CopiesAsk(d, t) && PlaceInv(x, d, t) && SameCluster(s, t)
    ensures Finished(x, d, s) || RankBelow(RankOf(x, d, t), RankOf(x, d, s))
  {
    hide Outdated, RankOf;
    assert Asks(s.eds, d) ==> Desired(c, s.eds) == Some(d);
    hide Desired;
    if !Finished(x, d, s) {
      PlaceDecides(x, d, s, t);
    }
  }

  lemma CoopResize(x: Context, d: int, s: State, t: State)
    requires ResizeStep(s, t) && CoopInv(x, d, s)
    ensures CopiesAsk(d, t) && PlaceInv(x, d, t) && RankBelow(RankOf(x, d, t), RankOf(x, d, s))
    ensures !Finished(x, d, s)
  {
    hide Outdated;
  }

  lemma CoopRescale(c: Settings, x: Context, d: int, s: State, a: Action, t: State)
    requires RescaleAction(c, s, a, t) && CoopInv(x, d, s)
    ensures CopiesAsk(d, t) && PlaceInv(x, d, t) && t.sts.Some?
    ensures Finished(x, d, s) ==> Finished(x, d, t)
    ensures Finished(x, d, s) || RankBelow(RankOf(x, d, t), RankOf(x, d, s))
  {
    match a
    case Refresh => CoopRefresh(c, x, d, s, t);
    case Resize => CoopResize(x, d, s, t);
    case _ => CoopSettles(c, x, d, s, a, t);
  }

  lemma CoopSettles(c: Settings, x: Context, d: int, s: State, a: Action, t: State)
    requires RescaleAction(c, s, a, t) && CoopInv(x, d, s) && !a.Refresh? && !a.Resize?
    ensures CopiesAsk(d, t) && PlaceInv(x, d, t) && SameCluster(s, t) && t.sts.Some?
    ensures RankBelow(RankOf(x, d, t), RankOf(x, d, s))
  {
    hide Outdated, RankOf, Stable, RefreshStep, ResizeStep;
    PlaceDecides(x, d, s, t);
  }

  lemma UnchangedSpecGoesOn(c: Settings, d: int, cur: Eds, latest: Eds)
    requires Asks(cur, d) && Asks(latest, d)
    ensures !DrainAborts(c, cur, latest)
  {
  }

  /** While the spec is left alone the draining loop does not give up. */
  lemma CoopDrain(c: Settings, x: Context, d: int, s: State, a: Action, t: State)
    requires DrainAction(c, s, a, t) && CoopInv(x, d, s)
    ensures CopiesAsk(d, t) && PlaceInv(x, d, t) && SameCluster(s, t) && !a.AbortDrain?
    ensures RankBelow(RankOf(x, d, t), RankOf(x, d, s))
  {
    DrainMoves(c, d, s, a, t);
    DrainFrames(c, s, a, t);
    hide Outdated, RankOf, DrainAction, StsCopyCurrent, Left;
    PlaceDecides(x, d, s, t);
  }

  lemma DrainMoves(c: Settings, d: int, s: State, a: Action, t: State)
    requires DrainAction(c, s, a, t) && Asks(s.eds, d) && Asks(s.loop.cur, d)
    ensures !a.AbortDrain?
    ensures || Place(t.loop.pc) < Place(s.loop.pc)
            || (Place(t.loop.pc) == Place(s.loop.pc) && Left(t.loop) < Left(s.loop))
  {
    UnchangedSpecGoesOn(c, d, s.loop.cur, s.eds);
    hide Stable, IsSortOf, AllNumbered, DrainAborts, Asks;
  }

  /** The hooks come to the end of their operation. */
  lemma CoopHook(x: Context, d: int, s: State, a: Action, t: State)
    requires HookAction(s, a, t) && CoopInv(x, d, s)
    ensures CopiesAsk(d, t) && PlaceInv(x, d, t) && SameCluster(s, t)
    ensures RankBelow(RankOf(x, d, t), RankOf(x, d, s))
  {
    hide Outdated, RankOf;
    PlaceDecides(x, d, s, t);
  }

  // ----- the others -----

  predicate AtMost(a: Rank, b: Rank) {
    a == b || RankBelow(a, b)
  }

  lemma FewerOutdated(x: Context, d: int, s: State, t: State)
    requires Outdated(x, t.pods) <= Outdated(x, s.pods) && Size(t) == Size(s) && t.loop == s.loop
    ensures AtMost(RankOf(x, d, t), RankOf(x, d, s))
  {
    var a, b := Outdated(x, t.pods), Outdated(x, s.pods);
    hide Outdated;
    FewerElements(a, b);
  }

  lemma FewerElements(a: set<int>, b: set<int>)
    requires a <= b
    ensures |a| <= |b| && (|a| == |b| ==> a == b)
  {
    assert b == a + (b - a);
    assert |b| == |a| + |b - a|;
  }

  lemma CoopOthers(c: Settings, x: Context, d: int, s: State, a: Action, t: State)
    requires CrdMinima(c) && (ScalerAction(c, s, a, t) || EnvAction(s, a, t))
    requires CoopInv(x, d, s) && Cooperative(x, s, a, t)
    ensures CoopInv(x, d, t) && AtMost(RankOf(x, d, t), RankOf(x, d, s)) && !LoopMoves(a)
    ensures Finished(x, d, s) ==> Finished(x, d, t)
  {
    OthersFrame(c, x, s, a, t);
    FewerOutdated(x, d, s, t);
    hide ScalerAction, EnvAction, Outdated, RankOf;
  }

  lemma OthersFrame(c: Settings, x: Context, s: State, a: Action, t: State)
    requires CrdMinima(c) && (ScalerAction(c, s, a, t) || EnvAction(s, a, t)) && Cooperative(x, s, a, t)
    ensures t.loop == s.loop && Outdated(x, t.pods) <= Outdated(x, s.pods) && !LoopMoves(a)
    ensures (s.sts.Some? <==> t.sts.Some?) && Size(t) == Size(s)
    ensures Updating(s.loop.pc) && Selected(x, s.loop, s.pods) ==> Selected(x, t.loop, t.pods)
  {
    hide Outdated, CalculateOperation, Hint, ReadyCount, NoNewMarks, Desired, Decidable;
  }

  // ----- every cooperative run -----

  lemma CoopStep(c: Settings, x: Context, d: int, s: State, a: Action, t: State)
    requires CrdMinima(c) && Next(c, s, a, t) && CoopInv(x, d, s) && Cooperative(x, s, a, t)
    ensures CoopInv(x, d, t)
    ensures Finished(x, d, s) ==> Finished(x, d, t)
    ensures Finished(x, d, s) || AtMost(RankOf(x, d, t), RankOf(x, d, s))
    ensures Finished(x, d, s) || !LoopMoves(a) || RankBelow(RankOf(x, d, t), RankOf(x, d, s))
  {
    StsCopyStep(c, s, a, t);
    hide OperateAction, UpdateAction, RescaleAction, DrainAction, HookAction, ScalerAction, EnvAction, Outdated,
         RankOf, CopiesAsk, PlaceInv, StsCopyCurrent, Cooperative, LoopMoves;
    if OperateAction(c, s, a, t) {
      CoopOperate(c, x, d, s, a, t);
      OperateLeaves(c, s, a, t);
    } else if UpdateAction(c, s, a, t) {
      CoopUpdate(c, x, d, s, a, t);
    } else if RescaleAction(c, s, a, t) {
      CoopRescale(c, x, d, s, a, t);
    } else if DrainAction(c, s, a, t) {
      CoopDrain(c, x, d, s, a, t);
      DrainFrames(c, s, a, t);
    } else if HookAction(s, a, t) {
      CoopHook(x, d, s, a, t);
      HookFrames(s, a, t);
    } else {
      CoopOthers(c, x, d, s, a, t);
    }
  }

  lemma OperateLeaves(c: Settings, s: State, a: Action, t: State)
    requires OperateAction(c, s, a, t) && s.sts.Some?
    ensures SameCluster(s, t)
  {
    hide Desired;
  }

  ghost predicate CooperativeRun(c: Settings, x: Context, run: nat -> State, actions: nat -> Action)
    requires CrdMinima(c)
  {
    forall i: nat ::
      Next(c, run(i), actions(i), run(i + 1)) && Cooperative(x, run(i), actions(i), run(i + 1))
  }

  /** The loop takes another step after any point. */
  ghost predicate LoopGoesOn(actions: nat -> Action) {
    forall i: nat :: MovesFrom(actions, i)
  }

  ghost predicate MovesFrom(actions: nat -> Action, i: nat) {
    exists j: nat :: i <= j && LoopMoves(actions(j))
  }

  /** What a cooperative step does to the rank. */
  ghost predicate NotBack(x: Context, d: int, s: State, a: Action, t: State) {
    CoopInv(x, d, s) ==>
      && CoopInv(x, d, t)
      && (Finished(x, d, s) ==> Finished(x, d, t))
      && (Finished(x, d, s) || AtMost(RankOf(x, d, t), RankOf(x, d, s)))
      && (Finished(x, d, s) || !LoopMoves(a) || RankBelow(RankOf(x, d, t), RankOf(x, d, s)))
  }

  ghost predicate NeverBack(x: Context, d: int, run: nat -> State, actions: nat -> Action) {
    forall i: nat :: NotBack(x, d, run(i), actions(i), run(i + 1))
  }

  lemma CooperationNeverBack(c: Settings, x: Context, d: int, run: nat -> State, actions: nat -> Action)
    requires CrdMinima(c) && CooperativeRun(c, x, run, actions)
    ensures NeverBack(x, d, run, actions)
  {
    hide CoopInv, Finished, RankOf, Next, Cooperative;
    forall i: nat ensures NotBack(x, d, run(i), actions(i), run(i + 1)) {
      assert Next(c, run(i), actions(i), run(i + 1)) && Cooperative(x, run(i), actions(i), run(i + 1));
      if CoopInv(x, d, run(i)) {
        CoopStep(c, x, d, run(i), actions(i), run(i + 1));
      }
    }
  }

  lemma {:induction false} RankStays(x: Context, d: int, run: nat -> State, actions: nat -> Action, i: nat, j: nat)
    requires NeverBack(x, d, run, actions) && CoopInv(x, d, run(i)) && i <= j
    ensures CoopInv(x, d, run(j))
    ensures Finished(x, d, run(i)) ==> Finished(x, d, run(j))
    ensures Finished(x, d, run(j)) || AtMost(RankOf(x, d, run(j)), RankOf(x, d, run(i)))
    decreases j
  {
    hide CoopInv, Finished, RankOf, LoopMoves;
    if i < j {
      RankStays(x, d, run, actions, i, j - 1);
      assert NotBack(x, d, run(j - 1), actions(j - 1), run(j));
    }
  }

  /** The next step of the loop lowers the rank below what it was before. */
  lemma NextMove(x: Context, d: int, run: nat -> State, actions: nat -> Action, i: nat) returns (j: nat)
    requires NeverBack(x, d, run, actions) && LoopGoesOn(actions) && CoopInv(x, d, run(i))
    ensures CoopInv(x, d, run(j))
    ensures Finished(x, d, run(j)) || RankBelow(RankOf(x, d, run(j)), RankOf(x, d, run(i)))
  {
    hide CoopInv, Finished, RankOf, LoopMoves;
    assert MovesFrom(actions, i);
    var m: nat :| i <= m && LoopMoves(actions(m));
    RankStays(x, d, run, actions, i, m);
    j := m + 1;
    assert NotBack(x, d, run(m), actions(m), run(j));
    hide NeverBack, LoopGoesOn;
  }

  lemma {:induction false} RankRunsOut(x: Context, d: int, run: nat -> State, actions: nat -> Action, i: nat)
    returns (j: nat)
    requires NeverBack(x, d, run, actions) && LoopGoesOn(actions) && CoopInv(x, d, run(i))
    ensures Finished(x, d, run(j)) && CoopInv(x, d, run(j))
    decreases RankOf(x, d, run(i)).outdated, RankOf(x, d, run(i)).distance,
              RankOf(x, d, run(i)).place, RankOf(x, d, run(i)).left
  {
    hide NeverBack, LoopGoesOn, CoopInv, Finished, RankOf;
    j := NextMove(x, d, run, actions, i);
    if !Finished(x, d, run(j)) {
      j := RankRunsOut(x, d, run, actions, j);
    }
  }

  /**
    Main result. Every run from rest in which the cluster cooperates and the loop keeps taking
    steps reaches the desired count with no outdated Pod, and stays there.
  */
  lemma EveryCooperativeRunFinishes(c: Settings, x: Context, d: int, run: nat -> State, actions: nat -> Action)
    returns (j: nat)
    requires CrdMinima(c) && CooperativeRun(c, x, run, actions) && LoopGoesOn(actions)
    requires run(0).loop.pc == Idle && run(0).sts.Some? && Asks(run(0).eds, d) && d >= 1
    ensures forall k: nat :: j <= k ==> Finished(x, d, run(k))
  {
    CooperationNeverBack(c, x, d, run, actions);
    j := RankRunsOut(x, d, run, actions, 0);
    forall k: nat | j <= k ensures Finished(x, d, run(k)) {
      RankStays(x, d, run, actions, j, k);
    }
  }
}
