/**
  Recovery: whatever failed and whoever interfered before, once the cluster cooperates the loop
  comes back to rest, and the rollout finishes.
*/
module Recovery {
  import opened Sequences
  import opened Autoscaler
  import opened Pods
  import opened ControlLoop
  import opened RolloutProgress
  import opened RolloutTermination
  import opened HandoffProgress

  /** What a cooperative step does to the loop, the desired count and the StatefulSet. */
  ghost predicate Link(s: State, a: Action, t: State) {
    && t.eds.replicas == s.eds.replicas && (s.sts.Some? ==> t.sts.Some?)
    && if LoopMoves(a) then Proceeds(s.loop, t.loop) else t.loop == s.loop
  }

  lemma StepIsLink(c: Settings, x: Context, s: State, a: Action, t: State)
    requires CrdMinima(c) && Next(c, s, a, t) && Cooperative(x, s, a, t)
    ensures Link(s, a, t)
  {
    if ScalerAction(c, s, a, t) || EnvAction(s, a, t) {
      OthersFrame(c, x, s, a, t);
    } else {
      MovesOfLoop(c, s, a, t);
      assert Undisturbed(s, a);
      LoopStepProceeds(c, s, a, t);
      StsStays(c, s, a, t);
    }
    hide OperateAction, UpdateAction, RescaleAction, DrainAction, HookAction, ScalerAction, EnvAction,
         Outdated, Proceeds;
  }

  lemma MovesOfLoop(c: Settings, s: State, a: Action, t: State)
    requires || OperateAction(c, s, a, t) || UpdateAction(c, s, a, t) || RescaleAction(c, s, a, t)
             || DrainAction(c, s, a, t) || HookAction(s, a, t)
    ensures LoopMoves(a)
  {
    hide OperateAction, UpdateAction, RescaleAction, DrainAction, HookAction;
    if OperateAction(c, s, a, t) {
      OperateFrames(c, s, a, t);
    } else if UpdateAction(c, s, a, t) {
      UpdateFrames(c, s, a, t);
    } else if RescaleAction(c, s, a, t) {
      RescaleFrames(c, s, a, t);
    } else if DrainAction(c, s, a, t) {
      DrainFrames(c, s, a, t);
    } else {
      HookFrames(s, a, t);
    }
  }

  lemma StsStays(c: Settings, s: State, a: Action, t: State)
    requires || OperateAction(c, s, a, t) || UpdateAction(c, s, a, t) || RescaleAction(c, s, a, t)
             || DrainAction(c, s, a, t) || HookAction(s, a, t)
    ensures s.sts.Some? ==> t.sts.Some?
  {
    hide Desired, Stable, Prioritized, CacheShowsMarks, AllNumbered, IsSortOf, DrainAborts;
  }

  /** The cluster cooperates from n on. */
  ghost predicate CooperatesFrom(x: Context, run: nat -> State, actions: nat -> Action, n: nat) {
    forall i: nat :: n <= i ==> Cooperative(x, run(i), actions(i), run(i + 1))
  }

  lemma CooperativeAfter(c: Settings, x: Context, run: nat -> State, actions: nat -> Action, n: nat, m: nat)
    requires CrdMinima(c) && EndlessRun(c, run, actions) && CooperatesFrom(x, run, actions, n) && n <= m
    ensures CooperativeRun(c, x, From(run, m), From(actions, m))
  {
    hide Next, Cooperative;
    forall i: nat
      ensures Next(c, From(run, m)(i), From(actions, m)(i), From(run, m)(i + 1))
      ensures Cooperative(x, From(run, m)(i), From(actions, m)(i), From(run, m)(i + 1))
    {
      assert Next(c, run(m + i), actions(m + i), run(m + i + 1));
      assert Cooperative(x, run(m + i), actions(m + i), run(m + i + 1));
    }
  }

  ghost predicate LinkedRun(run: nat -> State, actions: nat -> Action) {
    forall i: nat :: Link(run(i), actions(i), run(i + 1))
  }

  lemma CooperativeIsLinked(c: Settings, x: Context, run: nat -> State, actions: nat -> Action)
    requires CrdMinima(c) && CooperativeRun(c, x, run, actions)
    ensures LinkedRun(run, actions)
  {
    hide Next, Cooperative, Link;
    forall i: nat ensures Link(run(i), actions(i), run(i + 1)) {
      assert Next(c, run(i), actions(i), run(i + 1)) && Cooperative(x, run(i), actions(i), run(i + 1));
      StepIsLink(c, x, run(i), actions(i), run(i + 1));
    }
  }

  lemma {:induction false} SpecStays(run: nat -> State, actions: nat -> Action, i: nat)
    requires LinkedRun(run, actions) && run(0).sts.Some?
    ensures run(i).sts.Some? && run(i).eds.replicas == run(0).eds.replicas
  {
    hide Proceeds, LoopMoves;
    if i > 0 {
      SpecStays(run, actions, i - 1);
      assert Link(run(i - 1), actions(i - 1), run(i));
    }
  }

  /** The first step of the loop from i on, at m at the latest. */
  lemma {:induction false} FirstMove(run: nat -> State, actions: nat -> Action, i: nat, m: nat) returns (j: nat)
    requires LinkedRun(run, actions) && i <= m && LoopMoves(actions(m))
    ensures i <= j && Proceeds(run(i).loop, run(j + 1).loop)
    decreases m - i
  {
    hide Proceeds, LoopMoves;
    assert Link(run(i), actions(i), run(i + 1));
    if LoopMoves(actions(i)) {
      j := i;
    } else {
      assert i != m;
      j := FirstMove(run, actions, i + 1, m);
    }
  }

  lemma {:induction false} LoopRests(run: nat -> State, actions: nat -> Action, i: nat) returns (j: nat)
    requires LinkedRun(run, actions) && LoopGoesOn(actions)
    ensures i <= j && run(j).loop.pc == Idle
    decreases CyclePlace(run(i).loop.pc), Left(run(i).loop)
  {
    hide LinkedRun, LoopGoesOn, Left, CyclePlace;
    if run(i).loop.pc == Idle {
      j := i;
    } else {
      var m := NextLoopMove(actions, i);
      var k := FirstMove(run, actions, i, m);
      if run(k + 1).loop.pc == Idle {
        j := k + 1;
      } else {
        j := LoopRests(run, actions, k + 1);
      }
    }
  }

  /**
    Main result. In every run in which the cluster cooperates from some point on and the loop keeps
    taking steps, whatever failed and whoever wrote what before, the desired count of that point is
    reached with no outdated Pod, and stays reached.
  */
  lemma EventualCooperationFinishes(c: Settings, x: Context, d: int, run: nat -> State, actions: nat -> Action, n: nat)
    returns (j: nat)
    requires CrdMinima(c) && EndlessRun(c, run, actions) && CooperatesFrom(x, run, actions, n) && LoopGoesOn(actions)
    requires run(n).sts.Some? && Asks(run(n).eds, d) && d >= 1
    ensures forall k: nat :: j <= k ==> Finished(x, d, run(k))
  {
    hide EndlessRun, CooperatesFrom, LoopGoesOn, CooperativeRun, LinkedRun, Finished;
    CooperativeAfter(c, x, run, actions, n, n);
    LoopGoesOnFrom(actions, n);
    CooperativeIsLinked(c, x, From(run, n), From(actions, n));
    var i := LoopRests(From(run, n), From(actions, n), 0);
    SpecStays(From(run, n), From(actions, n), i);
    var m := n + i;
    CooperativeAfter(c, x, run, actions, n, m);
    LoopGoesOnFrom(actions, m);
    var l := EveryCooperativeRunFinishes(c, x, d, From(run, m), From(actions, m));
    j := m + l;
    forall k: nat | j <= k ensures Finished(x, d, run(k)) {
      assert From(run, m)(k - m) == run(k);
    }
  }
}
