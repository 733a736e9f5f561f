/** Stretches of runs of the transition system, and how to extend them by a step of each group. */
module Traces {
  import opened Autoscaler
  import opened ControlLoop

  /** A stretch of a run, from any state. */
  ghost predicate Trace(c: Settings, run: seq<State>, actions: seq<Action>)
    requires CrdMinima(c)
  {
    && |run| == |actions| + 1
    && forall i :: 0 <= i < |actions| ==> Next(c, run[i], actions[i], run[i + 1])
  }

  /** Nobody but the autoscaler writes spec.replicas. */
  ghost predicate NoEdits(actions: seq<Action>) {
    forall i :: 0 <= i < |actions| ==> !actions[i].EnvEdit?
  }

  /** A stretch of a run without edits leads from one state to another. */
  ghost predicate Leads(c: Settings, s: State, t: State)
    requires CrdMinima(c)
  {
    exists run, actions :: Trace(c, run, actions) && NoEdits(actions) && run[0] == s && run[|run| - 1] == t
  }

  /** The steps of one party among all. */
  function StepsOf(actions: seq<Action>, mine: Action -> bool): seq<Action> {
    if actions == [] then []
    else
      var last := actions[|actions| - 1];
      StepsOf(actions[..|actions| - 1], mine) + if mine(last) then [last] else []
  }

  lemma OneStepMore(actions: seq<Action>, mine: Action -> bool, a: Action)
    ensures StepsOf(actions + [a], mine) == StepsOf(actions, mine) + if mine(a) then [a] else []
  {
    assert (actions + [a])[..|actions|] == actions;
  }

  lemma LeadsNowhere(c: Settings, s: State)
    requires CrdMinima(c)
    ensures Leads(c, s, s)
  {
    assert Trace(c, [s], []);
  }

  lemma TraceGoesOn(c: Settings, run: seq<State>, actions: seq<Action>, a: Action, t: State)
    requires CrdMinima(c) && Trace(c, run, actions) && Next(c, run[|run| - 1], a, t)
    ensures Trace(c, run + [t], actions + [a])
  {
    hide Next;
    var longer, more := run + [t], actions + [a];
    forall i | 0 <= i < |more| ensures Next(c, longer[i], more[i], longer[i + 1]) {
      if i < |actions| {
        assert Next(c, run[i], actions[i], run[i + 1]);
      }
    }
  }

  lemma Then(c: Settings, s: State, t: State, a: Action, u: State)
    requires CrdMinima(c) && Leads(c, s, t) && Next(c, t, a, u) && !a.EnvEdit?
    ensures Leads(c, s, u)
  {
    var run, actions :| Trace(c, run, actions) && NoEdits(actions) && run[0] == s && run[|run| - 1] == t;
    hide Next;
    TraceGoesOn(c, run, actions, a, u);
    assert (run + [u])[0] == s && (run + [u])[|run + [u]| - 1] == u;
    hide Trace;
  }

  lemma ByOperate(c: Settings, s: State, a: Action, t: State)
    requires CrdMinima(c) && OperateAction(c, s, a, t)
    ensures Next(c, s, a, t)
  {
    hide OperateAction;
  }

  lemma ThenOperate(c: Settings, s: State, t: State, a: Action, u: State)
    requires CrdMinima(c) && Leads(c, s, t) && OperateAction(c, t, a, u)
    ensures Leads(c, s, u)
  {
    OperateFrames(c, t, a, u);
    hide Leads, OperateAction;
    Then(c, s, t, a, u);
  }

  lemma ByUpdate(c: Settings, s: State, a: Action, t: State)
    requires CrdMinima(c) && UpdateAction(c, s, a, t)
    ensures Next(c, s, a, t)
  {
    hide UpdateAction;
  }

  lemma ThenUpdate(c: Settings, s: State, t: State, a: Action, u: State)
    requires CrdMinima(c) && Leads(c, s, t) && UpdateAction(c, t, a, u)
    ensures Leads(c, s, u)
  {
    UpdateFrames(c, t, a, u);
    hide Leads, UpdateAction;
    Then(c, s, t, a, u);
  }

  lemma ByRescale(c: Settings, s: State, a: Action, t: State)
    requires CrdMinima(c) && RescaleAction(c, s, a, t)
    ensures Next(c, s, a, t)
  {
    hide RescaleAction;
  }

  lemma ThenRescale(c: Settings, s: State, t: State, a: Action, u: State)
    requires CrdMinima(c) && Leads(c, s, t) && RescaleAction(c, t, a, u)
    ensures Leads(c, s, u)
  {
    RescaleFrames(c, t, a, u);
    hide Leads, RescaleAction;
    Then(c, s, t, a, u);
  }

  lemma ByDrain(c: Settings, s: State, a: Action, t: State)
    requires CrdMinima(c) && DrainAction(c, s, a, t)
    ensures Next(c, s, a, t)
  {
    hide DrainAction;
  }

  lemma ThenDrain(c: Settings, s: State, t: State, a: Action, u: State)
    requires CrdMinima(c) && Leads(c, s, t) && DrainAction(c, t, a, u)
    ensures Leads(c, s, u)
  {
    DrainFrames(c, t, a, u);
    hide Leads, DrainAction;
    Then(c, s, t, a, u);
  }

  lemma ByHook(c: Settings, s: State, a: Action, t: State)
    requires CrdMinima(c) && HookAction(s, a, t)
    ensures Next(c, s, a, t)
  {
    hide HookAction;
  }

  lemma ThenHook(c: Settings, s: State, t: State, a: Action, u: State)
    requires CrdMinima(c) && Leads(c, s, t) && HookAction(t, a, u)
    ensures Leads(c, s, u)
  {
    HookFrames(t, a, u);
    hide Leads, HookAction;
    Then(c, s, t, a, u);
  }

  lemma ByScaler(c: Settings, s: State, a: Action, t: State)
    requires CrdMinima(c) && ScalerAction(c, s, a, t)
    ensures Next(c, s, a, t)
  {
    hide ScalerAction;
  }

  lemma ThenScaler(c: Settings, s: State, t: State, a: Action, u: State)
    requires CrdMinima(c) && Leads(c, s, t) && ScalerAction(c, t, a, u)
    ensures Leads(c, s, u)
  {
    ScalerFrames(c, t, a, u);
    hide Leads, ScalerAction;
    Then(c, s, t, a, u);
  }

  lemma ThenEnv(c: Settings, s: State, t: State, a: Action, u: State)
    requires CrdMinima(c) && Leads(c, s, t) && EnvAction(t, a, u) && !a.EnvEdit?
    ensures Leads(c, s, u)
  {
    hide Leads, EnvAction;
    Then(c, s, t, a, u);
  }

  lemma {:induction false} LeadsOn(c: Settings, s: State, t: State, run: seq<State>, actions: seq<Action>)
    requires CrdMinima(c) && Leads(c, s, t) && Trace(c, run, actions) && NoEdits(actions) && run[0] == t
    ensures Leads(c, s, run[|run| - 1])
    decreases |actions|
  {
    hide Next, Leads;
    if actions != [] {
      var n := |actions|;
      assert Trace(c, run[..n], actions[..n - 1]);
      LeadsOn(c, s, t, run[..n], actions[..n - 1]);
      Then(c, s, run[n - 1], actions[n - 1], run[n]);
    }
  }

  lemma LeadsTransitive(c: Settings, s: State, t: State, u: State)
    requires CrdMinima(c) && Leads(c, s, t) && Leads(c, t, u)
    ensures Leads(c, s, u)
  {
    var run, actions :| Trace(c, run, actions) && NoEdits(actions) && run[0] == t && run[|run| - 1] == u;
    hide Trace;
    LeadsOn(c, s, t, run, actions);
  }
}
