/**
  Runs that show where the conditions of the main results are needed: a mark that lands on a
  Pod without a node, and a scale-down whose draining is aborted.
*/
module Scenarios {
  import opened Base
  import opened Autoscaler
  import opened Pods
  import opened ControlLoop
  import opened RolloutProgress
  import opened Traces

  // ----- two marked Pods -----

  /** A rolling update reaches the stability check with a Pod selected. */
  lemma ReachesMarking(c: Settings, x: Context, s: State) returns (t: State, o: int)
    requires CrdMinima(c) && s.loop.pc == Idle && s.sts.Some? && Size(s) >= 1 && s.eds.replicas == Some(Size(s) - 1)
    requires s.pods.Keys == Below(Size(s)) && Outdated(x, s.pods) != {}
    requires forall p :: p in s.pods ==> s.pods[p].ordinal == Some(p)
    ensures Leads(c, s, t) && t == s.(loop := t.loop, eds := t.eds) && t.eds.replicas == s.eds.replicas
    ensures o in Outdated(x, s.pods) && o in s.pods && s.pods[o].ordinal == Some(o)
    ensures t.loop.pc == AwaitSurge && t.loop.pod == Some(s.pods[o])
  {
    hide Leads, Outdated;
    var pod;
    t, pod := CycleSelects(c, x, s);
    o := pod.value.ordinal.value;
    OutdatedMember(x, s.pods, o);
  }

  /** What the environment may do to the Pods between two steps. */
  lemma PodsChange(c: Settings, s: State, t: State, pods: map<int, Pod>) returns (u: State)
    requires CrdMinima(c) && Leads(c, s, t)
    requires NoNewMarks(t.pods, pods)
    ensures Leads(c, s, u) && u == t.(pods := pods, losses := u.losses)
  {
    hide Leads;
    u := t.(pods := pods, losses := t.losses + Max(0, ReadyCount(t.pods) - ReadyCount(pods)));
    hide ReadyCount, NoNewMarks;
    assert EnvPodsStep(t, pods, u);
    ThenEnv(c, s, t, EnvPods(pods), u);
  }

  /** The loop waits for stability and marks the Pod it selected, whatever Pod has that name now. */
  lemma MarksByName(c: Settings, s: State, t: State, o: int, pods: map<int, Pod>) returns (u: State)
    requires CrdMinima(c) && Leads(c, s, t) && Stable(t) && t.loop.pc == AwaitSurge
    requires t.loop.pod.Some? && t.loop.pod.value.ordinal == Some(o) && !t.loop.pod.value.draining
    requires o in pods && NoNewMarks(t.pods, pods)
    ensures Leads(c, s, u) && u.pods == pods[o := pods[o].(draining := true)]
    ensures u.loop.pc == Idle && u.sts == t.sts && u.eds == t.eds
  {
    hide Leads, Stable, NoNewMarks;
    var t1 := t.(loop := t.loop.(pc := Marking), losses := 0);
    assert SurgeStableStep(t, t1);
    ThenUpdate(c, s, t, SurgeStable, t1);
    var t2 := PodsChange(c, s, t1, pods);
    u := MarkThenFail(c, s, t2, o);
  }

  /** The mark lands on the Pod of that name, and the next call fails. */
  lemma MarkThenFail(c: Settings, s: State, t: State, o: int) returns (u: State)
    requires CrdMinima(c) && Leads(c, s, t) && t.loop.pc == Marking && o in t.pods
    requires t.loop.pod.Some? && t.loop.pod.value.ordinal == Some(o) && !t.loop.pod.value.draining
    ensures Leads(c, s, u) && u.pods == t.pods[o := t.pods[o].(draining := true)]
    ensures u.loop.pc == Idle && u.sts == t.sts && u.eds == t.eds
  {
    hide Leads;
    var t1 := t.(loop := t.loop.(pc := DrainingPod), pods := t.pods[o := t.pods[o].(draining := true)]);
    assert MarkStep(t, t1);
    ThenUpdate(c, s, t, Mark, t1);
    u := t1.(loop := t1.loop.(pc := Idle));
    ThenOperate(c, s, t1, Fail, u);
  }

  /** The Pod as it is while its replacement waits for a node. */
  function Unscheduled(pod: Pod): Pod {
    pod.(node := "", ready := false)
  }

  /** The selected Pod is recreated, and has no node yet when the mark lands on its name. */
  lemma MarkGoesStray(c: Settings, x: Context, s: State) returns (t: State, o: int)
    requires CrdMinima(c) && Settled(s) && s.eds.replicas == Some(Size(s) - 1)
    requires forall q :: q in s.pods ==> !s.pods[q].draining
    requires Outdated(x, s.pods) != {}
    ensures Leads(c, s, t) && o in Outdated(x, s.pods) && o in s.pods
    ensures t.pods == s.pods[o := Unscheduled(s.pods[o]).(draining := true)]
    ensures t.loop.pc == Idle && t.sts == s.sts && t.eds.replicas == s.eds.replicas
  {
    hide Leads, Outdated, Stable, Below, NoNewMarks;
    var s1;
    s1, o := ReachesMarking(c, x, s);
    AllReadyIsStable(s1);
    RecreatedUnmarked(s.pods, o);
    hide *;
    t := MarksByName(c, s, s1, o, s.pods[o := Unscheduled(s.pods[o])]);
  }

  lemma RecreatedUnmarked(pods: map<int, Pod>, o: int)
    requires o in pods && forall q :: q in pods ==> !pods[q].draining
    ensures NoNewMarks(pods, pods[o := Unscheduled(pods[o])])
    ensures !pods[o].draining
  {
  }

  /** A Pod without a node is not one to update, so the cycle goes on to another. */
  lemma StrayIsSkipped(x: Context, pods: map<int, Pod>, o: int)
    requires o in Outdated(x, pods) && |Outdated(x, pods)| >= 2
    ensures o in pods
    ensures var marked := pods[o := Unscheduled(pods[o]).(draining := true)];
            Outdated(x, marked) == Outdated(x, pods) - {o} && Outdated(x, marked) != {}
  {
    var marked := pods[o := Unscheduled(pods[o]).(draining := true)];
    assert Outdated(x, marked) == Outdated(x, pods) - {o};
    assert |Outdated(x, pods) - {o}| == |Outdated(x, pods)| - 1;
  }

  /**
    The selected Pod is recreated without a node just before it is marked by name. The next
    cycle skips it for having no node, selects another Pod and marks that one too.
  */
  lemma TwoMarksAfterStrayMark(c: Settings, x: Context, s: State) returns (t: State, o: int, p: int)
    requires CrdMinima(c) && Settled(s) && s.eds.replicas == Some(Size(s) - 1)
    requires forall q :: q in s.pods ==> !s.pods[q].draining
    requires |Outdated(x, s.pods)| >= 2
    ensures Leads(c, s, t)
    ensures o != p && o in t.pods && p in t.pods && t.pods[o].draining && t.pods[p].draining
  {
    var s2;
    s2, o := MarkGoesStray(c, x, s);
    StrayIsSkipped(x, s.pods, o);
    assert s2.pods.Keys == s.pods.Keys;
    var s3;
    s3, p := ReachesMarking(c, x, s2);
    LeadsTransitive(c, s, s2, s3);
    t := SecondMark(c, x, s, s2, s3, o, p);
  }

  /** The stray Pod has got its node back, the StatefulSet is stable and the second mark lands. */
  lemma SecondMark(c: Settings, x: Context, s: State, s2: State, s3: State, o: int, p: int) returns (t: State)
    requires CrdMinima(c) && Settled(s) && Leads(c, s, s3) && o in s.pods
    requires s3.pods == s2.pods == s.pods[o := Unscheduled(s.pods[o]).(draining := true)] && s3.sts == s.sts
    requires forall q :: q in s.pods ==> !s.pods[q].draining
    requires p in s3.pods && p != o && s3.loop.pc == AwaitSurge && s3.loop.pod == Some(s3.pods[p])
    ensures Leads(c, s, t)
    ensures o in t.pods && p in t.pods && t.pods[o].draining && t.pods[p].draining
  {
    hide Leads, Below;
    var scheduled := s3.pods[o := s.pods[o].(draining := true)];
    var s4 := PodsChange(c, s, s3, scheduled);
    assert s4.pods.Keys == s.pods.Keys;
    AllReadyIsStable(s4);
    hide Stable;
    t := MarksByName(c, s, s4, p, scheduled);
  }

  // ----- a shrink that drained nothing -----

  /**
    The desired count is raised while the draining loop runs. The loop gives up and returns
    nil, and the caller still removes the last replica, whose Pod was not drained.
  */
  lemma AbortedDrainStillShrinks(c: Settings, x: Context, s: State)
    returns (before: State, after: State, t: State, last: Pod)
    requires CrdMinima(c) && Settled(s) && Outdated(x, s.pods) == {}
    requires s.eds.replicas.Some? && 0 < s.eds.replicas.value < Size(s)
    ensures Leads(c, s, before) && EnvAction(before, EnvEdit(Some(Size(s))), after) && Leads(c, after, t)
    ensures t.sts.Some? && Size(t) == Size(s) - 1 && t.eds.replicas == Some(Size(s))
    ensures last == s.pods[Size(s) - 1] && t.loop.slice == [last]
    ensures !last.pending && t.loop.drained == [] && t.loop.aborted
  {
    before := ReachesDraining(c, x, s);
    hide Leads, Outdated, PodsInPlace, Below, Settled, CrdMinima, EnvAction;
    last := s.pods[Size(s) - 1];
    after, t := EditThenShrink(c, before, Size(s));
  }

  lemma EditThenShrink(c: Settings, before: State, n: int) returns (after: State, t: State)
    requires CrdMinima(c) && before.loop.pc == ScaleDraining && before.loop.todo != []
    requires before.loop.cur.replicas.Some? && before.loop.cur.replicas.value < n
    requires before.sts.Some? && before.sts.value.version == before.loop.sts.version
    ensures EnvAction(before, EnvEdit(Some(n)), after) && Leads(c, after, t)
    ensures t.sts.Some? && Size(t) == before.loop.target && t.eds.replicas == Some(n)
    ensures t.loop.slice == before.loop.slice && t.loop.drained == before.loop.drained && t.loop.aborted
  {
    hide Leads;
    after := before.(eds := before.eds.(version := before.eds.version + 1, replicas := Some(n)));
    LeadsNowhere(c, after);
    t := AbortThenShrink(c, after, after);
  }

  lemma AbortThenShrink(c: Settings, s: State, t: State) returns (u: State)
    requires CrdMinima(c) && Leads(c, s, t) && t.loop.pc == ScaleDraining && t.loop.todo != []
    requires DrainAborts(c, t.loop.cur, t.eds)
    requires t.sts.Some? && t.sts.value.version == t.loop.sts.version
    ensures Leads(c, s, u) && u.sts.Some? && Size(u) == t.loop.target && u.eds == t.eds
    ensures u.loop.slice == t.loop.slice && u.loop.drained == t.loop.drained && u.loop.aborted
  {
    hide Leads, DrainAborts;
    var t1 := t.(loop := t.loop.(todo := [], aborted := true));
    assert AbortDrainStep(c, t, t1);
    ThenDrain(c, s, t, AbortDrain, t1);
    u := ResizeNow(c, s, t1);
  }
}
