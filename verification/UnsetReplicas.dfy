/**
  The size when spec.replicas is not set: no bound holds, so that the range of SizeSafety is kept
  exactly when it is set.
*/
module UnsetReplicas {
  import opened Base
  import opened Autoscaler
  import opened Pods
  import opened ControlLoop
  import opened Traces
  import opened RolloutProgress
  import SizeSafety

  /** A context in which the first Pod is on a node it should not be on, and a node that is good then. */
  function MovedAway(pod: Pod): (x: Context)
    ensures GoodNode(x, pod.node + "0")
    ensures pod.node != "" ==> NeedsUpdate(x, pod)
  {
    Context("", {pod.node + "0"}, {}, None, 0)
  }

  lemma OneMoreNode(c: Settings, s: State) returns (t: State)
    requires CrdMinima(c) && c.enabled && c.minReplicas >= 1 && Settled(s)
    requires s.eds.replicas.None? && Size(s) >= c.minReplicas
    ensures Leads(c, s, t) && Settled(t) && t.eds.replicas.None? && Size(t) == Size(s) + 1
  {
    assert 0 in s.pods;
    var x := MovedAway(s.pods[0]);
    assert 0 in Outdated(x, s.pods);
    assert Desired(c, s.eds.(statusReplicas := Size(s))) == Some(Size(s));
    hide Leads, Desired, GoodNode, NeedsUpdate, PodsInPlace, Below, MovedAway;
    t := UpdateCycle(c, x, s.pods[0].node + "0", s);
  }

  /** Without spec.replicas each update that moves a Pod adds a node for good, so no bound holds. */
  lemma {:induction false} UnsetSpecUnbounded(c: Settings, s: State, bound: int) returns (t: State)
    requires CrdMinima(c) && c.enabled && c.minReplicas >= 1 && Settled(s)
    requires s.eds.replicas.None? && Size(s) >= c.minReplicas
    ensures Leads(c, s, t) && Settled(t) && t.eds.replicas.None? && Size(t) > bound
    decreases bound - Size(s)
  {
    hide Leads, PodsInPlace, Below;
    if Size(s) > bound {
      t := s;
      LeadsNowhere(c, s);
    } else {
      var u := OneMoreNode(c, s);
      t := UnsetSpecUnbounded(c, u, bound);
      LeadsTransitive(c, s, u, t);
    }
  }

  // ----- from any start -----

  lemma ReachesCreation(c: Settings, s: State) returns (t: State)
    requires CrdMinima(c) && s.loop.pc == Idle
    ensures Leads(c, s, t) && t == s.(loop := t.loop) && t.loop.pc == Preparing && t.loop.sr == s.eds
  {
    hide Leads;
    var u := s.(loop := s.loop.(pc := Started, cur := s.eds));
    t := u.(loop := u.loop.(pc := Preparing, sr := s.eds));
    LeadsNowhere(c, s);
    assert StartStep(s, u);
    ThenOperate(c, s, s, Start, u);
    assert PrepareStep(u, t);
    ThenOperate(c, s, u, Prepare, t);
  }

  /** The first cycle creates a missing StatefulSet with the least count, or the one in the status. */
  lemma StsIsCreated(c: Settings, s: State) returns (t: State)
    requires CrdMinima(c) && c.enabled && c.minReplicas >= 1 && s.loop.pc == Idle && s.sts.None?
    requires s.eds.replicas.None?
    ensures Leads(c, s, t) && t == s.(loop := t.loop, sts := t.sts) && t.loop.pc == Idle
    ensures t.sts.Some? && Size(t) >= c.minReplicas
  {
    var u := ReachesCreation(c, s);
    var n := Desired(c, s.eds).value;
    assert Desired(c, s.eds) == Some(n) && n >= c.minReplicas;
    hide Leads, Desired;
    var v := u.(sts := Some(Sts(0, n)), loop := u.loop.(pc := Reconciled, sts := Sts(0, n)));
    assert ReconcileStep(c, u, false, v);
    ThenOperate(c, s, u, Reconcile(false), v);
    t := v.(loop := v.loop.(pc := Idle));
    ThenOperate(c, s, v, Fail, t);
  }

  lemma FreshPods(before: map<int, Pod>, n: int) returns (pods: map<int, Pod>)
    requires n >= 0
    ensures NoNewMarks(before, pods) && pods.Keys == Below(n) && PodsInPlace(pods)
  {
    var x := Context("", {"0"}, {}, None, 0);
    pods := Refilled(x, "0", map[], n);
    RefilledInPlace(x, "0", map[], n);
    RefilledMarks(x, "0", map[], n);
    hide Refilled, Below;
  }

  /** All Pods are replaced by new ones. */
  lemma PodsSettle(c: Settings, s: State, t: State) returns (u: State)
    requires CrdMinima(c) && Leads(c, s, t) && t.loop.pc == Idle && t.sts.Some? && Size(t) >= 1 && Directed(t.eds)
    ensures Leads(c, s, u) && Settled(u) && u.sts == t.sts && u.eds == t.eds
  {
    hide Leads, ReadyCount, NoNewMarks, PodsInPlace, Below;
    var pods := FreshPods(t.pods, Size(t));
    u := t.(pods := pods, losses := t.losses + Max(0, ReadyCount(t.pods) - ReadyCount(pods)));
    assert EnvPodsStep(t, pods, u);
    hide Settled;
    ThenEnv(c, s, t, EnvPods(pods), u);
  }

  lemma ReachesSettled(c: Settings, s: State) returns (t: State)
    requires CrdMinima(c) && c.enabled && c.minReplicas >= 1 && Init(s) && s.eds.replicas.None?
    requires s.sts.Some? ==> s.sts.value.replicas >= c.minReplicas
    ensures Leads(c, s, t) && Settled(t) && t.eds.replicas.None? && Size(t) >= c.minReplicas
  {
    hide Leads, Settled;
    var u := s;
    if s.sts.None? {
      u := StsIsCreated(c, s);
    } else {
      LeadsNowhere(c, s);
    }
    t := PodsSettle(c, s, u);
  }

  // ----- the exact condition -----

  /** In every run from here, with spec.replicas written by the autoscaler only, the size stays within a bound. */
  ghost predicate SizeStaysWithin(c: Settings, s: State, bound: int)
    requires CrdMinima(c)
  {
    forall run, actions, i: nat ::
      Run(c, run, actions) && run[0] == s && NoEdits(actions) && i < |run| ==> Size(run[i]) <= bound
  }

  lemma SetSpecBounds(c: Settings, s: State)
    requires Valid(c) && Init(s) && SizeSafety.GoodStart(c, s)
    ensures SizeStaysWithin(c, s, c.maxReplicas + 1)
  {
    assert CrdMinima(c);
    hide Valid, Init, SizeSafety.GoodStart;
    forall run, actions, i: nat | Run(c, run, actions) && run[0] == s && NoEdits(actions) && i < |run|
      ensures Size(run[i]) <= c.maxReplicas + 1
    {
      SizeSafety.AllAlways(c, run, actions, i);
      WithinRange(c, run[i]);
    }
  }

  lemma WithinRange(c: Settings, s: State)
    requires SizeSafety.AllInv(c, s)
    ensures Size(s) <= c.maxReplicas + 1
  {
    hide SizeSafety.FloorInv, SizeSafety.SpecInv;
  }

  lemma UnsetSpecExceeds(c: Settings, s: State, bound: int)
    requires Valid(c) && Init(s) && s.eds.replicas.None?
    requires s.sts.Some? ==> s.sts.value.replicas >= c.minReplicas
    ensures !SizeStaysWithin(c, s, bound)
  {
    var t := ReachesSettled(c, s);
    var u := UnsetSpecUnbounded(c, t, bound);
    LeadsTransitive(c, s, t, u);
    var run, actions :| Trace(c, run, actions) && NoEdits(actions) && run[0] == s && run[|run| - 1] == u;
    hide Next, Init, Settled;
    assert Run(c, run, actions);
    assert Size(run[|run| - 1]) > bound;
  }

  /**
    Main result. From a start with a size and a count in range, the size stays within maxReplicas and
    one more if and only if spec.replicas is set; unset, it stays within no bound whatever.
  */
  lemma SizeIsBoundedExactly(c: Settings, s: State, bound: int)
    requires Valid(c) && Init(s) && bound >= c.maxReplicas + 1
    requires s.sts.Some? ==> c.minReplicas <= s.sts.value.replicas <= c.maxReplicas + 1
    requires s.eds.replicas.Some? ==> SizeSafety.InRange(c, s.eds.replicas.value)
    ensures SizeStaysWithin(c, s, bound) <==> s.eds.replicas.Some?
  {
    if s.eds.replicas.Some? {
      SetSpecBounds(c, s);
      hide Run, Init, Valid;
    } else {
      UnsetSpecExceeds(c, s, bound);
      hide SizeStaysWithin;
    }
  }
}
