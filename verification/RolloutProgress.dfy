/**
  Progress of the operator loop when the cluster cooperates: deleted Pods come back ready and
  up to date, Pods above the replica count go away, and nothing fails. One operate cycle after
  the other then brings the StatefulSet to the desired size with no outdated Pod.
*/
module RolloutProgress {
  import opened Base
  import opened Sequences
  import opened Autoscaler
  import opened Pods
  import opened ControlLoop
  import opened Traces

  // ----- a settled cluster -----

  /** A node Pods are supposed to be on. */
  predicate GoodNode(x: Context, node: string) {
    node != "" && node in x.priorityNodes && node !in x.unschedulableNodes
  }

  /** The Pod the StatefulSet controller starts at an ordinal once the cluster has settled. */
  function NewPod(x: Context, node: string, ordinal: int): Pod {
    Pod(Some(ordinal), 0, false, node, Some(x.updateRevision), false, true)
  }

  /** The ordinals of a StatefulSet with n replicas. */
  ghost function Below(n: int): (r: set<int>)
    ensures forall o :: o in r <==> 0 <= o < n
    ensures n >= 0 ==> |r| == n
  {
    if n <= 0 then {} else Below(n - 1) + {n - 1}
  }

  /** Pods at exactly the ordinals below n, the missing ones new. */
  function Refilled(x: Context, node: string, pods: map<int, Pod>, n: int): map<int, Pod> {
    map o | 0 <= o < n :: if o in pods then pods[o] else NewPod(x, node, o)
  }

  /** An operation in the annotation has a direction. */
  predicate Directed(e: Eds) {
    e.pending.Some? ==> e.pending.value.operation.direction != NONE
  }

  /** The loop is between two cycles and every Pod the StatefulSet should have is there and ready. */
  ghost predicate Settled(s: State) {
    && s.loop.pc == Idle && Directed(s.eds) && s.sts.Some? && s.sts.value.replicas >= 1
    && s.pods.Keys == Below(s.sts.value.replicas)
    && PodsInPlace(s.pods)
  }

  ghost function Outdated(x: Context, pods: map<int, Pod>): set<int> {
    set o | o in pods && NeedsUpdate(x, pods[o])
  }

  function Size(s: State): int {
    if s.sts.Some? then s.sts.value.replicas else 0
  }

  /** The Pod cache, in step with the cluster. */
  function View(pods: map<int, Pod>, n: int): seq<Pod>
    requires forall o :: 0 <= o < n ==> o in pods
    requires n >= 0
  {
    seq(n, i requires 0 <= i < n => pods[i])
  }

  /** With a ready Pod at every ordinal below the replica count the StatefulSet is stable. */
  lemma AllReadyIsStable(s: State)
    requires s.sts.Some? && s.sts.value.replicas >= 0
    requires s.pods.Keys == Below(s.sts.value.replicas)
    requires forall o :: o in s.pods ==> s.pods[o].ready
    ensures Stable(s)
  {
    assert ReadyPods(s.pods) == Below(s.sts.value.replicas);
  }

  // ----- the parts of a cycle -----

  /** Reading the EDS and the StatefulSet and reporting the size in the status. */
  lemma CycleReports(c: Settings, s: State) returns (t: State)
    requires CrdMinima(c) && s.loop.pc == Idle && s.sts.Some?
    ensures Leads(c, s, t) && t.loop.pc == Reported && t.loop.sts == s.sts.value
    ensures t == s.(loop := t.loop, eds := t.eds)
    ensures t.eds == s.eds.(version := t.eds.version, statusReplicas := Size(s))
  {
    hide Leads, Desired, PodsInPlace;
    var sts := s.sts.value;
    var s1 := s.(loop := s.loop.(pc := Started, cur := s.eds));
    LeadsNowhere(c, s);
    assert StartStep(s, s1);
    ThenOperate(c, s, s, Start, s1);
    var s1' := s1.(loop := s1.loop.(pc := Preparing, sr := s.eds));
    assert PrepareStep(s1, s1');
    ThenOperate(c, s, s1, Prepare, s1');
    var s2 := s1'.(loop := s1'.loop.(pc := Reconciled, sts := sts));
    assert ReconcileStep(c, s1', false, s2);
    ThenOperate(c, s, s1', Reconcile(false), s2);
    t := s2.(loop := s2.loop.(pc := Reported),
             eds := if s.eds.statusReplicas == sts.replicas then s.eds
                    else s.eds.(version := s.eds.version + 1, statusReplicas := sts.replicas));
    assert ReportStep(s2, false, t);
    ThenOperate(c, s, s2, Report(false), t);
  }

  /** From between two cycles to where operatePods has read the EDS. */
  lemma CycleBegins(c: Settings, s: State) returns (t: State)
    requires CrdMinima(c) && s.loop.pc == Idle && s.sts.Some?
    ensures Leads(c, s, t)
    ensures t == s.(loop := t.loop, eds := t.eds)
    ensures t.eds == s.eds.(version := t.eds.version, statusReplicas := Size(s))
    ensures t.loop.sr == t.eds && t.loop.sts == s.sts.value
    ensures var desired := Desired(c, t.eds);
            if desired.Some? && Size(s) < desired.value then t.loop.pc == Rescaling && t.loop.up
            else t.loop.pc == Selecting
  {
    var r := CycleReports(c, s);
    hide Leads, Desired;
    var desired := Desired(c, r.eds);
    t := if desired.Some? && r.loop.sts.replicas < desired.value
         then r.(loop := r.loop.(pc := Rescaling, sr := r.eds, up := true))
         else r.(loop := r.loop.(pc := Selecting, sr := r.eds));
    assert OperateStep(c, r, t);
    ThenOperate(c, s, r, Operate, t);
  }

  /** Where getPodToUpdate takes the loop. */
  function AfterSelection(c: Settings, s: State, pod: Option<Pod>): State {
    if pod.None? then s.(loop := s.loop.(pc := Rescaling, up := false))
    else s.(loop := s.loop.(pod := pod,
            pc := if Desired(c, s.loop.sr) == Some(s.loop.sts.replicas) then Surging else AwaitSurge))
  }

  /** The Pod cache shows exactly the Pods there are. */
  ghost predicate InStep(pods: map<int, Pod>, view: seq<Pod>) {
    && (forall o :: o in pods ==> pods[o] in view)
    && (forall pod :: pod in view ==>
          pod.ordinal.Some? && pod.ordinal.value in pods && pods[pod.ordinal.value] == pod)
  }

  /** With the cache in step, a Pod is selected exactly when one is outdated. */
  lemma ChosenInStep(x: Context, seen: Context, pods: map<int, Pod>, view: seq<Pod>, r: seq<Pod>)
    requires InStep(pods, view) && Prioritized(seen, view, r)
    requires seen == x.(desired := seen.desired, replicas := seen.replicas)
    ensures PodToUpdate(r).None? ==> Outdated(x, pods) == {}
    ensures PodToUpdate(r).Some? ==>
              var pod := PodToUpdate(r).value;
              pod.ordinal.Some? && pod.ordinal.value in Outdated(x, pods) && pod == pods[pod.ordinal.value]
  {
    hide Prioritized, NeedsUpdate, Before, PodToUpdate;
    ChosenPod(seen, view, r);
    SameNeeds(x, seen);
    if PodToUpdate(r).None? {
      forall o | o in pods ensures !NeedsUpdate(x, pods[o]) {
        assert pods[o] in view;
      }
    }
  }

  /** Replica counts play no part in which Pods need an update. */
  lemma SameNeeds(x: Context, x': Context)
    requires x' == x.(desired := x'.desired, replicas := x'.replicas)
    ensures forall pod :: NeedsUpdate(x', pod) <==> NeedsUpdate(x, pod)
  {
  }

  lemma SelectionExists(c: Settings, x: Context, s: State) returns (pod: Option<Pod>)
    requires CrdMinima(c) && s.loop.pc == Selecting && s.sts.Some? && Size(s) >= 0
    requires s.pods.Keys == Below(Size(s))
    requires forall o :: o in s.pods ==> s.pods[o].ordinal == Some(o)
    ensures Leads(c, s, AfterSelection(c, s, pod))
    ensures pod.None? ==> Outdated(x, s.pods) == {}
    ensures pod.Some? ==>
              pod.value.ordinal.Some? && pod.value.ordinal.value in Outdated(x, s.pods)
              && pod.value == s.pods[pod.value.ordinal.value]
  {
    hide Leads, Desired, Prioritized, Outdated, CacheShowsMarks, AllNumbered;
    var view := View(s.pods, Size(s));
    var x' := x.(desired := Desired(c, s.loop.sr), replicas := s.loop.sts.replicas);
    var r := PrioritizedView(x', view);
    ViewMembers(s.pods, Size(s));
    ChosenInStep(x, x', s.pods, view, r);
    pod := PodToUpdate(r);
    hide View;
    SelectHolds(c, s, x', view, r);
    LeadsNowhere(c, s);
    hide UpdateAction;
    ThenUpdate(c, s, s, SelectPod(x', view, r), AfterSelection(c, s, pod));
  }

  /** The first half of a cycle that is not below the desired count. */
  lemma CycleSelects(c: Settings, x: Context, s: State) returns (t: State, pod: Option<Pod>)
    requires CrdMinima(c) && s.loop.pc == Idle && s.sts.Some? && Size(s) >= 0 && s.pods.Keys == Below(Size(s))
    requires forall o :: o in s.pods ==> s.pods[o].ordinal == Some(o)
    requires var d := Desired(c, s.eds.(statusReplicas := Size(s))); d.Some? ==> d.value <= Size(s)
    ensures Leads(c, s, t) && t == s.(loop := t.loop, eds := t.eds)
    ensures t.eds == s.eds.(version := t.eds.version, statusReplicas := Size(s))
    ensures t.loop.sr == t.eds && t.loop.sts == s.sts.value
    ensures pod.None? ==> Outdated(x, s.pods) == {} && t.loop.pc == Rescaling && !t.loop.up
    ensures pod.Some? ==>
              && pod.value.ordinal.Some? && pod.value.ordinal.value in Outdated(x, s.pods)
              && pod.value == s.pods[pod.value.ordinal.value] && t.loop.pod == pod
              && t.loop.pc == if Desired(c, s.eds.(statusReplicas := Size(s))) == Some(Size(s)) then Surging
                              else AwaitSurge
  {
    var s1 := CycleBegins(c, s);
    assert Desired(c, s1.eds) == Desired(c, s.eds.(statusReplicas := Size(s)));
    hide Desired;
    pod := SelectionExists(c, x, s1);
    t := AfterSelection(c, s1, pod);
    LeadsTransitive(c, s, s1, t);
    hide Leads, Outdated;
  }

  lemma SelectHolds(c: Settings, s: State, x: Context, view: seq<Pod>, r: seq<Pod>)
    requires s.loop.pc == Selecting && CacheShowsMarks(s.pods, view) && AllNumbered(view)
    requires x.desired == Desired(c, s.loop.sr) && x.replicas == s.loop.sts.replicas && Prioritized(x, view, r)
    ensures UpdateAction(c, s, SelectPod(x, view, r), AfterSelection(c, s, PodToUpdate(r)))
  {
    hide Prioritized, CacheShowsMarks, AllNumbered, Desired;
  }

  lemma PrioritizedView(x: Context, view: seq<Pod>) returns (r: seq<Pod>)
    ensures Prioritized(x, view, r)
  {
    BeforeIsTotal(x);
    r := Sort(Select(view, pod => NeedsUpdate(x, pod)), Before(x));
  }

  lemma ViewMembers(pods: map<int, Pod>, n: int)
    requires n >= 0 && pods.Keys == Below(n)
    requires forall o :: o in pods ==> pods[o].ordinal == Some(o)
    ensures InStep(pods, View(pods, n))
    ensures AllNumbered(View(pods, n)) && CacheShowsMarks(pods, View(pods, n))
  {
    var view := View(pods, n);
    assert |view| == n && forall i :: 0 <= i < n ==> view[i] == pods[i] && i in pods;
    hide View;
    forall o | o in pods ensures pods[o] in view {
      assert view[o] == pods[o];
    }
    hide Below;
    InStepShowsMarks(pods, view);
    hide CacheShowsMarks, AllNumbered;
  }

  lemma InStepShowsMarks(pods: map<int, Pod>, view: seq<Pod>)
    requires InStep(pods, view)
    ensures AllNumbered(view) && CacheShowsMarks(pods, view)
  {
    forall i | 0 <= i < |view| ensures view[i].ordinal.Some? {
      assert view[i] in view;
    }
  }

  // ----- the three kinds of cycle -----

  /** A hook sends the indices of its operation from where it is. */
  lemma IndicesAreSent(c: Settings, s: State, t: State) returns (u: State)
    requires CrdMinima(c) && Leads(c, s, t) && InHook(t.loop) && HookOperation(t.loop).Some?
    requires t.loop.sent <= |HookOperation(t.loop).value.operation.indexReplicas|
    ensures Leads(c, s, u)
    ensures u == t.(loop := t.loop.(sent := |HookOperation(t.loop).value.operation.indexReplicas|),
                    accepted := u.accepted, newest := u.newest)
    decreases |HookOperation(t.loop).value.operation.indexReplicas| - t.loop.sent
  {
    hide Leads;
    var p := HookOperation(t.loop).value;
    u := t;
    if t.loop.sent < |p.operation.indexReplicas| {
      var t1 := t.(loop := t.loop.(sent := t.loop.sent + 1), newest := Max(t.newest, p.id),
                   accepted := t.accepted + {(p.id, t.loop.sent)});
      assert SendIndexStep(t, t1);
      ThenHook(c, s, t, SendIndex, t1);
      u := IndicesAreSent(c, s, t1);
    }
  }

  /**
    A whole hook. The annotation goes if the hook's copy of the EDS is current; if not, which only
    happens in the final hook, the removal fails and the cycle ends with an error.
  */
  lemma HookRuns(c: Settings, s: State, t: State) returns (u: State)
    requires CrdMinima(c) && Leads(c, s, t) && InHook(t.loop) && t.loop.sent == 0
    requires t.loop.pc == PreHook ==> HookVersion(t.loop) == t.eds.version
    ensures Leads(c, s, u) && u == t.(loop := u.loop, eds := u.eds, accepted := u.accepted, newest := u.newest)
    ensures u.loop == AfterHook(t.loop).(sent := u.loop.sent)
    ensures u.eds == if HookOperation(t.loop).Some? && HookVersion(t.loop) == t.eds.version
                     then t.eds.(version := t.eds.version + 1, pending := None) else t.eds
  {
    hide Leads;
    if HookOperation(t.loop).None? {
      u := t.(loop := AfterHook(t.loop));
      assert SkipHookStep(t, u);
      ThenHook(c, s, t, SkipHook, u);
    } else {
      var t1 := IndicesAreSent(c, s, t);
      u := HookConcludes(c, s, t1);
    }
  }

  lemma HookConcludes(c: Settings, s: State, t: State) returns (u: State)
    requires CrdMinima(c) && Leads(c, s, t) && InHook(t.loop) && HookOperation(t.loop).Some?
    requires t.loop.sent == |HookOperation(t.loop).value.operation.indexReplicas|
    requires t.loop.pc == PreHook ==> HookVersion(t.loop) == t.eds.version
    ensures Leads(c, s, u) && u.loop == AfterHook(t.loop)
    ensures u == t.(loop := u.loop, eds := if HookVersion(t.loop) == t.eds.version
                                           then t.eds.(version := t.eds.version + 1, pending := None) else t.eds)
  {
    hide Leads;
    if HookVersion(t.loop) == t.eds.version {
      u := t.(loop := AfterHook(t.loop), eds := t.eds.(version := t.eds.version + 1, pending := None));
      assert RemoveAnnotationStep(t, u);
      ThenHook(c, s, t, RemoveAnnotation, u);
    } else {
      u := t.(loop := t.loop.(pc := Idle));
      ThenOperate(c, s, t, Fail, u);
    }
  }

  /** A cycle ends with the annotation gone, if it was there when the cycle read the EDS. */
  lemma CycleEnds(c: Settings, s: State, t: State) returns (u: State)
    requires CrdMinima(c) && Leads(c, s, t) && t.loop.pc == FinalHook && t.loop.sent == 0
    requires Directed(t.loop.sr) && (t.eds == t.loop.sr || t.eds.pending.None?)
    ensures Leads(c, s, u) && u.loop.pc == Idle
    ensures u == t.(loop := u.loop, eds := u.eds, accepted := u.accepted, newest := u.newest)
    ensures u.eds == t.eds.(version := u.eds.version, pending := None)
  {
    hide Leads;
    u := HookRuns(c, s, t);
  }

  lemma RefillStep(x: Context, node: string, t: State) returns (u: State)
    ensures EnvAction(t, EnvPods(Refilled(x, node, t.pods, Size(t))), u)
    ensures u == t.(pods := Refilled(x, node, t.pods, Size(t)), losses := u.losses)
  {
    var pods := Refilled(x, node, t.pods, Size(t));
    RefilledMarks(x, node, t.pods, Size(t));
    u := t.(pods := pods, losses := t.losses + Max(0, ReadyCount(t.pods) - ReadyCount(pods)));
    hide ReadyCount, Refilled, NoNewMarks;
    assert EnvPodsStep(t, pods, u);
  }

  /** The cluster catches up with the replica count and is stable. */
  lemma ClusterCatchesUp(c: Settings, x: Context, node: string, s: State, t: State) returns (u: State)
    requires CrdMinima(c) && Leads(c, s, t) && GoodNode(x, node)
    requires t.sts.Some? && Size(t) >= 1 && PodsInPlace(t.pods)
    ensures Leads(c, s, u) && Stable(u)
    ensures u == t.(pods := u.pods, losses := u.losses)
    ensures u.pods.Keys == Below(Size(t)) && PodsInPlace(u.pods)
    ensures Outdated(x, u.pods) == Outdated(x, t.pods) * Below(Size(t))
  {
    hide Leads, EnvAction, Stable, Outdated, Refilled;
    RefilledInPlace(x, node, t.pods, Size(t));
    u := RefillStep(x, node, t);
    AllReadyIsStable(u);
    ThenEnv(c, s, t, EnvPods(Refilled(x, node, t.pods, Size(t))), u);
  }

  lemma RefilledMarks(x: Context, node: string, pods: map<int, Pod>, n: int)
    ensures NoNewMarks(pods, Refilled(x, node, pods, n))
  {
  }

  lemma ResizeNow(c: Settings, s: State, t: State) returns (u: State)
    requires CrdMinima(c) && Leads(c, s, t) && t.loop.pc == ScaleDraining && t.loop.todo == []
    requires t.sts.Some? && t.sts.value.version == t.loop.sts.version
    ensures Leads(c, s, u) && u.sts.Some? && Size(u) == t.loop.target
    ensures u == t.(sts := u.sts, loop := t.loop.(pc := AwaitResize, sts := t.loop.sts.(replicas := t.loop.target)))
  {
    hide Leads;
    u := t.(sts := Some(Sts(t.sts.value.version + 1, t.loop.target)),
            loop := t.loop.(pc := AwaitResize, sts := t.loop.sts.(replicas := t.loop.target)));
    assert ResizeStep(t, u);
    ThenRescale(c, s, t, Resize, u);
  }

  /** A rescale with nothing left to drain sets the size, and the cluster follows. */
  lemma SizeIsSet(c: Settings, x: Context, node: string, s: State, t: State) returns (u: State)
    requires CrdMinima(c) && Leads(c, s, t) && GoodNode(x, node)
    requires t.loop.pc == ScaleDraining && t.loop.todo == [] && t.loop.target >= 1
    requires t.sts.Some? && t.sts.value.version == t.loop.sts.version && PodsInPlace(t.pods)
    ensures Leads(c, s, u) && Stable(u) && Size(u) == t.loop.target && u.sts.Some?
    ensures u.eds == t.eds && u.pods.Keys == Below(t.loop.target) && PodsInPlace(u.pods)
    ensures Outdated(x, u.pods) == Outdated(x, t.pods) * Below(t.loop.target)
    ensures u.loop == AfterRescale(t.loop.(pc := AwaitResize, sts := t.loop.sts.(replicas := t.loop.target)))
  {
    hide Leads, Outdated, Stable, PodsInPlace;
    var t1 := ResizeNow(c, s, t);
    var t2 := ClusterCatchesUp(c, x, node, s, t1);
    u := t2.(loop := AfterRescale(t2.loop));
    assert ResizeStableStep(t2, u);
    ThenRescale(c, s, t2, ResizeStable, u);
    StableElsewhere(t2, u);
  }

  lemma StableElsewhere(s: State, t: State)
    requires Stable(s) && t.sts == s.sts && t.pods == s.pods
    ensures Stable(t)
  {
  }

  /** Every Pod carries its ordinal, runs on a node and is ready. */
  ghost predicate PodsInPlace(pods: map<int, Pod>) {
    forall o :: o in pods ==> pods[o].ordinal == Some(o) && pods[o].ready && !pods[o].pending && pods[o].node != ""
  }

  lemma RefilledInPlace(x: Context, node: string, pods: map<int, Pod>, n: int)
    requires PodsInPlace(pods) && GoodNode(x, node) && n >= 0
    ensures Refilled(x, node, pods, n).Keys == Below(n)
    ensures PodsInPlace(Refilled(x, node, pods, n))
    ensures Outdated(x, Refilled(x, node, pods, n)) == Outdated(x, pods) * Below(n)
  {
    forall o ensures !NeedsUpdate(x, NewPod(x, node, o)) {
    }
  }

  /** Below the desired count the cycle goes straight up to it. */
  lemma GrowCycle(c: Settings, x: Context, node: string, s: State) returns (t: State)
    requires CrdMinima(c) && Settled(s) && GoodNode(x, node)
    requires s.eds.replicas.Some? && Size(s) < s.eds.replicas.value
    ensures Leads(c, s, t) && Settled(t) && t.eds.pending.None?
    ensures t.eds.replicas == s.eds.replicas && Size(t) == s.eds.replicas.value
    ensures Outdated(x, t.pods) == Outdated(x, s.pods)
  {
    var s1 := CycleBegins(c, s);
    var s3 := RescaleUpBegins(c, s, s1);
    hide Leads, Desired, Outdated;
    var s6 := SizeIsSet(c, x, node, s, s3);
    OutdatedWithin(x, s.pods, Size(s), s.eds.replicas.value);
    hide PodsInPlace, Below, Stable;
    t := CycleEnds(c, s, s6);
  }

  lemma OutdatedWithin(x: Context, pods: map<int, Pod>, n: int, m: int)
    requires pods.Keys == Below(n) && n <= m
    ensures Outdated(x, pods) * Below(m) == Outdated(x, pods)
  {
  }

  lemma RescaleUpBegins(c: Settings, s: State, t: State) returns (u: State)
    requires CrdMinima(c) && Leads(c, s, t) && t.loop.pc == Rescaling
    requires Desired(c, t.eds).Some? && Desired(c, t.eds).value > t.loop.sts.replicas
    requires t.pods.Keys == Below(t.loop.sts.replicas) && t.loop.sts.replicas >= 0 && PodsInPlace(t.pods)
    ensures Leads(c, s, u) && u == t.(loop := u.loop) && u.loop.pc == ScaleDraining && u.loop.todo == []
    ensures u.loop.target == Desired(c, t.eds).value && u.loop.up == t.loop.up
    ensures u.loop.sr == t.loop.sr && u.loop.sts == t.loop.sts
  {
    hide Leads, Desired, PodsInPlace, Below;
    var l := BeginRescale(t);
    var t1 := t.(loop := l.(pc := Listing, target := Desired(c, t.eds).value));
    assert RefreshStep(c, t, t1);
    ThenRescale(c, s, t, Refresh, t1);
    u := NothingListed(c, s, t1);
  }

  lemma NothingListed(c: Settings, s: State, t: State) returns (u: State)
    requires CrdMinima(c) && Leads(c, s, t) && t.loop.pc == Listing && 0 <= t.loop.sts.replicas <= t.loop.target
    requires t.pods.Keys == Below(t.loop.sts.replicas) && PodsInPlace(t.pods)
    ensures Leads(c, s, u) && u == t.(loop := t.loop.(pc := ScaleDraining, slice := [], todo := []))
  {
    var n := t.loop.sts.replicas;
    var view := View(t.pods, n);
    u := t.(loop := t.loop.(pc := ScaleDraining, slice := [], todo := []));
    ViewSorted(t.pods, n);
    assert |view| == n;
    hide Leads, View, IsSortOf, AllNumbered, Below, PodsInPlace;
    assert ListStep(t, view, view, u);
    ThenDrain(c, s, t, ListPods(view, view), u);
  }

  lemma ViewSorted(pods: map<int, Pod>, n: int)
    requires n >= 0 && pods.Keys == Below(n) && PodsInPlace(pods)
    ensures IsSortOf(View(pods, n), View(pods, n), ByOrdinal()) && AllNumbered(View(pods, n))
  {
    var view := View(pods, n);
    assert |view| == n && forall i :: 0 <= i < n ==> view[i].ordinal == Some(i) by {
      assert forall i :: 0 <= i < n ==> view[i] == pods[i] && i in pods;
    }
    hide View, Below, PodsInPlace;
    assert SortedBy(view, ByOrdinal());
  }

  /** One more replica for the rolling update, if the StatefulSet is at the desired count. */
  lemma SurgeIfNeeded(c: Settings, x: Context, node: string, s: State, t: State) returns (u: State)
    requires CrdMinima(c) && Leads(c, s, t) && GoodNode(x, node) && t.loop.pc in {Surging, AwaitSurge}
    requires t.sts == Some(t.loop.sts) && Size(t) >= 1 && t.pods.Keys == Below(Size(t)) && PodsInPlace(t.pods)
    ensures Leads(c, s, u) && Stable(u) && u.loop.pc == AwaitSurge
    ensures u.sts.Some? && Size(u) == if t.loop.pc == Surging then Size(t) + 1 else Size(t)
    ensures u.pods.Keys == Below(Size(u)) && PodsInPlace(u.pods) && Outdated(x, u.pods) == Outdated(x, t.pods)
    ensures u.eds == t.eds && u.loop.sr == t.loop.sr && u.loop.pod == t.loop.pod
  {
    hide Leads, Outdated, PodsInPlace;
    if t.loop.pc == AwaitSurge {
      u := t;
      AllReadyIsStable(u) by { InPlaceReady(t.pods); }
    } else {
      hide Stable, Below, GoodNode;
      var t1 := SurgeNow(c, s, t);
      u := ClusterCatchesUp(c, x, node, s, t1);
      OutdatedWithin(x, t.pods, Size(t), Size(t1));
    }
  }

  lemma SurgeNow(c: Settings, s: State, t: State) returns (u: State)
    requires CrdMinima(c) && Leads(c, s, t) && t.loop.pc == Surging && t.sts == Some(t.loop.sts)
    ensures Leads(c, s, u) && u.sts.Some? && Size(u) == Size(t) + 1 && u.loop.pc == AwaitSurge
    ensures u.pods == t.pods && u.eds == t.eds && u.loop.sr == t.loop.sr && u.loop.pod == t.loop.pod
  {
    hide Leads;
    var more := t.loop.sts.replicas + 1;
    u := t.(sts := Some(Sts(t.sts.value.version + 1, more)),
            loop := t.loop.(pc := AwaitSurge, sts := t.loop.sts.(replicas := more)));
    assert SurgeStep(t, u);
    ThenUpdate(c, s, t, Surge, u);
  }

  lemma InPlaceReady(pods: map<int, Pod>)
    requires PodsInPlace(pods)
    ensures forall o :: o in pods ==> pods[o].ready
  {
  }

  lemma StableThenMarked(c: Settings, s: State, t: State, o: int) returns (u: State)
    requires CrdMinima(c) && Leads(c, s, t) && Stable(t) && t.loop.pc == AwaitSurge
    requires o in t.pods && t.loop.pod.Some? && t.loop.pod.value.ordinal == Some(o)
    ensures Leads(c, s, u) && u.loop == t.loop.(pc := DrainingPod)
    ensures u == t.(loop := u.loop, pods := u.pods, losses := 0)
    ensures u.pods - {o} == t.pods - {o} && o in u.pods
  {
    hide Leads, Stable;
    var t1 := t.(loop := t.loop.(pc := Marking), losses := 0);
    assert SurgeStableStep(t, t1);
    ThenUpdate(c, s, t, SurgeStable, t1);
    u := if t.loop.pod.value.draining then t1.(loop := t1.loop.(pc := DrainingPod))
         else t1.(loop := t1.loop.(pc := DrainingPod), pods := t1.pods[o := t1.pods[o].(draining := true)]);
    assert MarkStep(t1, u);
    ThenUpdate(c, s, t1, Mark, u);
  }

  /** The selected Pod is marked, drained and deleted. */
  lemma PodIsReplaced(c: Settings, s: State, t: State, o: int) returns (u: State)
    requires CrdMinima(c) && Leads(c, s, t) && Stable(t) && t.loop.pc == AwaitSurge
    requires o in t.pods && t.loop.pod.Some? && t.loop.pod.value.ordinal == Some(o)
    ensures Leads(c, s, u) && u.loop.pc == FinalHook && u.loop.sr == t.loop.sr && u.loop.sent == 0
    ensures u.pods == t.pods - {o} && u.sts == t.sts && u.eds == t.eds
  {
    var t1 := StableThenMarked(c, s, t, o);
    hide Leads, Stable;
    var t2 := t1.(loop := t1.loop.(pc := Deleting));
    assert DrainPodStep(t1, t2);
    ThenUpdate(c, s, t1, DrainPod, t2);
    u := t2.(loop := t2.loop.(pc := FinalHook, sent := 0), pods := t2.pods - {o});
    assert DeleteStep(t2, u);
    ThenUpdate(c, s, t2, Delete, u);
  }

  /** An operate cycle that finds an outdated Pod replaces it by a current one. */
  lemma UpdateCycle(c: Settings, x: Context, node: string, s: State) returns (t: State)
    requires CrdMinima(c) && Settled(s) && GoodNode(x, node) && Outdated(x, s.pods) != {}
    requires var d := Desired(c, s.eds.(statusReplicas := Size(s))); d.Some? ==> d.value <= Size(s)
    ensures Leads(c, s, t) && Settled(t) && t.eds.replicas == s.eds.replicas && t.eds.pending.None?
    ensures Size(t) == if Desired(c, s.eds.(statusReplicas := Size(s))) == Some(Size(s)) then Size(s) + 1 else Size(s)
    ensures exists o :: o in Outdated(x, s.pods) && Outdated(x, t.pods) == Outdated(x, s.pods) - {o}
  {
    hide Leads, Outdated, Desired;
    var s2, pod := CycleSelects(c, x, s);
    var o := pod.value.ordinal.value;
    var s3 := SurgeIfNeeded(c, x, node, s, s2);
    OutdatedMember(x, s3.pods, o);
    var s4 := PodIsReplaced(c, s, s3, o);
    var s5 := CycleEnds(c, s, s4);
    RemovedInPlace(x, s3.pods, o, Size(s3));
    t := ClusterCatchesUp(c, x, node, s, s5);
    hide Stable, PodsInPlace;
    assert Settled(t);
  }

  lemma OutdatedMember(x: Context, pods: map<int, Pod>, o: int)
    requires o in Outdated(x, pods)
    ensures o in pods
  {
  }

  lemma RemovedInPlace(x: Context, pods: map<int, Pod>, o: int, n: int)
    requires PodsInPlace(pods) && pods.Keys == Below(n)
    ensures PodsInPlace(pods - {o})
    ensures Outdated(x, pods - {o}) * Below(n) == Outdated(x, pods) - {o}
  {
  }

  // ----- scaling in by one -----

  /** With no outdated Pod and one replica too many, the last Pod is the slice to drain. */
  lemma RescaleDownBegins(c: Settings, s: State, t: State) returns (u: State)
    requires CrdMinima(c) && Leads(c, s, t) && t.loop.pc == Rescaling && !t.loop.up
    requires Directed(t.eds) && t.eds.replicas.Some? && 0 < t.eds.replicas.value < t.loop.sts.replicas
    requires t.pods.Keys == Below(t.loop.sts.replicas) && PodsInPlace(t.pods)
    ensures Leads(c, s, u) && u == t.(loop := u.loop, eds := u.eds, accepted := u.accepted, newest := u.newest)
    ensures u.eds == t.eds.(version := u.eds.version, pending := None)
    ensures var n := t.loop.sts.replicas;
            && n - 1 in t.pods && u.loop.slice == u.loop.todo == [t.pods[n - 1]] && u.loop.target == n - 1
            && u.loop.pc == ScaleDraining && u.loop.cur == t.eds && u.loop.drained == [] && !u.loop.aborted
            && u.loop.sr == t.loop.sr && u.loop.sts == t.loop.sts && u.loop.up == t.loop.up
  {
    var t2 := RescaleDownHook(c, s, t);
    hide Leads, PodsInPlace, Below;
    u := LastPodListed(c, s, t2);
  }

  lemma LastPodListed(c: Settings, s: State, t: State) returns (u: State)
    requires CrdMinima(c) && Leads(c, s, t) && t.loop.pc == Listing && 0 <= t.loop.target
    requires t.pods.Keys == Below(t.loop.target + 1) && PodsInPlace(t.pods)
    ensures t.loop.target in t.pods
    ensures Leads(c, s, u) && u == t.(loop := u.loop)
    ensures u.loop == t.loop.(pc := ScaleDraining, slice := [t.pods[t.loop.target]], todo := [t.pods[t.loop.target]])
  {
    hide Leads;
    var n := t.loop.target + 1;
    ViewSorted(t.pods, n);
    LastOfView(t.pods, n);
    var view := View(t.pods, n);
    u := t.(loop := t.loop.(pc := ScaleDraining, slice := view[n - 1..], todo := view[n - 1..]));
    hide View, IsSortOf, AllNumbered, Below, PodsInPlace;
    assert ListStep(t, view, view, u);
    ThenDrain(c, s, t, ListPods(view, view), u);
  }

  lemma LastOfView(pods: map<int, Pod>, n: int)
    requires n >= 1 && pods.Keys == Below(n)
    ensures n - 1 in pods && |View(pods, n)| == n && View(pods, n)[n - 1..] == [pods[n - 1]]
  {
  }

  lemma RescaleDownHook(c: Settings, s: State, t: State) returns (u: State)
    requires CrdMinima(c) && Leads(c, s, t) && t.loop.pc == Rescaling
    requires Directed(t.eds) && t.eds.replicas.Some? && 0 < t.eds.replicas.value < t.loop.sts.replicas
    ensures Leads(c, s, u) && u == t.(loop := u.loop, eds := u.eds, accepted := u.accepted, newest := u.newest)
    ensures u.eds == t.eds.(version := u.eds.version, pending := None)
    ensures u.loop == BeginRescale(t).(pc := Listing, target := t.loop.sts.replicas - 1, sent := u.loop.sent)
  {
    hide Leads;
    var t1 := t.(loop := BeginRescale(t).(pc := PreHook));
    assert RefreshStep(c, t, t1);
    ThenRescale(c, s, t, Refresh, t1);
    u := HookRuns(c, s, t1);
  }

  lemma LastPodDrained(c: Settings, s: State, t: State) returns (u: State)
    requires CrdMinima(c) && Leads(c, s, t) && t.loop.pc == ScaleDraining && |t.loop.todo| == 1
    requires t.loop.cur.replicas == t.eds.replicas && t.eds.replicas.Some? && !t.loop.todo[0].pending && Stable(t)
    ensures Leads(c, s, u) && u == t.(loop := t.loop.(todo := [], drained := t.loop.drained + t.loop.todo))
  {
    hide Leads;
    var t1 := t.(loop := t.loop.(pc := SliceChecked));
    assert CheckSliceStep(c, t, t1);
    ThenDrain(c, s, t, CheckSlice, t1);
    u := t.(loop := t.loop.(todo := t.loop.todo[1..], drained := t.loop.drained + [t.loop.todo[0]]));
    assert t.loop.todo == [t.loop.todo[0]];
    StableElsewhere(t, t1);
    hide Stable;
    assert DrainNextStep(t1, u);
    ThenDrain(c, s, t1, DrainNext, u);
  }

  /** With no outdated Pod and too many replicas, the cycle goes on to drain the last Pod. */
  lemma ReachesDraining(c: Settings, x: Context, s: State) returns (t: State)
    requires CrdMinima(c) && Settled(s) && Outdated(x, s.pods) == {}
    requires s.eds.replicas.Some? && 0 < s.eds.replicas.value < Size(s)
    ensures Leads(c, s, t) && t == s.(loop := t.loop, eds := t.eds, accepted := t.accepted, newest := t.newest)
    ensures t.eds.replicas == t.loop.cur.replicas == s.eds.replicas && t.eds.pending.None? && Directed(t.loop.sr)
    ensures t.loop.pc == ScaleDraining && t.loop.target == Size(s) - 1 && t.loop.sts == s.sts.value
    ensures Size(s) - 1 in s.pods && !s.pods[Size(s) - 1].pending && !t.loop.up
    ensures t.loop.slice == t.loop.todo == [s.pods[Size(s) - 1]] && t.loop.drained == []
  {
    hide Leads, Outdated, Below;
    var s1, pod := CycleSelects(c, x, s);
    assert !s.pods[Size(s) - 1].pending by {
      LastInPlace(s.pods, Size(s));
    }
    hide Desired, PodsInPlace;
    t := RescaleDownBegins(c, s, s1);
  }

  lemma LastInPlace(pods: map<int, Pod>, n: int)
    requires n >= 1 && pods.Keys == Below(n) && PodsInPlace(pods)
    ensures n - 1 in pods && !pods[n - 1].pending
  {
  }

  lemma ShrinkDrains(c: Settings, x: Context, s: State) returns (t: State)
    requires CrdMinima(c) && Settled(s) && Outdated(x, s.pods) == {}
    requires s.eds.replicas.Some? && 0 < s.eds.replicas.value < Size(s)
    ensures Leads(c, s, t) && t == s.(loop := t.loop, eds := t.eds, accepted := t.accepted, newest := t.newest)
    ensures t.eds.replicas == s.eds.replicas && t.eds.pending.None? && Directed(t.loop.sr)
    ensures t.loop.pc == ScaleDraining && t.loop.todo == [] && t.loop.target == Size(s) - 1 && !t.loop.up
    ensures t.loop.sts == s.sts.value
  {
    var s1 := ReachesDraining(c, x, s);
    hide Leads, Outdated;
    AllReadyIsStable(s1);
    hide Stable, PodsInPlace, Below;
    t := LastPodDrained(c, s, s1);
  }

  lemma RescaleEnds(c: Settings, s: State, t: State) returns (u: State)
    requires CrdMinima(c) && Leads(c, s, t) && t.loop.pc == AwaitStable && Stable(t)
    requires Directed(t.loop.sr) && (t.eds == t.loop.sr || t.eds.pending.None?)
    ensures Leads(c, s, u) && u.loop.pc == Idle
    ensures u == t.(loop := u.loop, eds := u.eds, accepted := u.accepted, newest := u.newest)
    ensures u.eds == t.eds.(version := u.eds.version, pending := None)
  {
    hide Leads, Stable;
    var t1 := t.(loop := t.loop.(pc := FinalHook, sent := 0));
    assert AllStableStep(t, t1);
    ThenRescale(c, s, t, AllStable, t1);
    u := CycleEnds(c, s, t1);
  }

  /** Above the desired count and with nothing to update, the cycle removes exactly one replica. */
  lemma ShrinkCycle(c: Settings, x: Context, node: string, s: State) returns (t: State)
    requires CrdMinima(c) && Settled(s) && GoodNode(x, node) && Outdated(x, s.pods) == {}
    requires s.eds.replicas.Some? && 0 < s.eds.replicas.value < Size(s)
    ensures Leads(c, s, t) && Settled(t) && t.eds.replicas == s.eds.replicas && t.eds.pending.None?
    ensures Size(t) == Size(s) - 1 && Outdated(x, t.pods) == {}
  {
    var s4 := ShrinkDrains(c, x, s);
    hide Leads, Outdated, Stable, PodsInPlace, Below, GoodNode;
    var s5 := SizeIsSet(c, x, node, s, s4);
    t := RescaleEnds(c, s, s5);
  }

  /** At the desired count and with nothing to update, the cycle carries out a pending operation. */
  lemma IdleCycle(c: Settings, x: Context, s: State) returns (t: State)
    requires CrdMinima(c) && Settled(s) && Outdated(x, s.pods) == {} && s.eds.replicas == Some(Size(s))
    ensures Leads(c, s, t) && Settled(t) && t.eds.replicas == s.eds.replicas && t.eds.pending.None?
    ensures t.pods == s.pods && Size(t) == Size(s)
  {
    hide Leads, Outdated, Below;
    var s1, pod := CycleSelects(c, x, s);
    var s2 := s1.(loop := AfterRescale(BeginRescale(s1)));
    assert RefreshStep(c, s1, s2);
    ThenRescale(c, s, s1, Refresh, s2);
    AllReadyIsStable(s2);
    hide Stable, PodsInPlace;
    t := RescaleEnds(c, s, s2);
  }

  // ----- main results -----

  /**
    Main result. With spec.replicas set and a cooperating cluster, the number of outdated Pods
    and then the distance to the desired count go down cycle by cycle, until the StatefulSet
    is at the desired count with no outdated Pod and a pending operation has been carried out.
  */
  lemma {:induction false} RolloutFinishes(c: Settings, x: Context, node: string, s: State) returns (t: State)
    requires CrdMinima(c) && Settled(s) && GoodNode(x, node)
    requires s.eds.replicas.Some? && s.eds.replicas.value >= 1
    ensures Leads(c, s, t) && Settled(t) && t.eds.replicas == s.eds.replicas
    ensures Size(t) == s.eds.replicas.value && Outdated(x, t.pods) == {} && t.eds.pending.None?
    decreases |Outdated(x, s.pods)|, Max(Size(s) - s.eds.replicas.value, s.eds.replicas.value - Size(s))
  {
    hide Leads;
    var d := s.eds.replicas.value;
    if Size(s) < d {
      var u := GrowCycle(c, x, node, s);
      t := RolloutFinishes(c, x, node, u);
      LeadsTransitive(c, s, u, t);
    } else if Outdated(x, s.pods) != {} {
      var u := UpdateCycle(c, x, node, s);
      assert |Outdated(x, u.pods)| < |Outdated(x, s.pods)| by {
        var o :| o in Outdated(x, s.pods) && Outdated(x, u.pods) == Outdated(x, s.pods) - {o};
      }
      t := RolloutFinishes(c, x, node, u);
      LeadsTransitive(c, s, u, t);
    } else if Size(s) > d {
      var u := ShrinkCycle(c, x, node, s);
      t := RolloutFinishes(c, x, node, u);
      LeadsTransitive(c, s, u, t);
    } else {
      t := IdleCycle(c, x, s);
    }
  }

  /**
    Why SizeSafety asks for spec.replicas to be set. Unset, the desired count follows the size
    reported in the status, so every Pod of a rolling update adds a replica that is never
    taken back: the StatefulSet grows by as many replicas as there are outdated Pods, past
    maxReplicas.
  */
  lemma {:induction false} UnsetSpecRatchets(c: Settings, x: Context, node: string, s: State) returns (t: State)
    requires CrdMinima(c) && c.enabled && c.minReplicas >= 1 && Settled(s) && GoodNode(x, node)
    requires s.eds.replicas.None? && Size(s) >= c.minReplicas
    ensures Leads(c, s, t) && Settled(t) && t.eds.replicas.None?
    ensures Size(t) == Size(s) + |Outdated(x, s.pods)| && Outdated(x, t.pods) == {}
    decreases |Outdated(x, s.pods)|
  {
    hide Leads;
    if Outdated(x, s.pods) == {} {
      t := s;
      LeadsNowhere(c, s);
    } else {
      assert Desired(c, s.eds.(statusReplicas := Size(s))) == Some(Size(s));
      hide Desired, GoodNode;
      var u := UpdateCycle(c, x, node, s);
      var o :| o in Outdated(x, s.pods) && Outdated(x, u.pods) == Outdated(x, s.pods) - {o};
      hide Outdated, PodsInPlace, Below;
      t := UnsetSpecRatchets(c, x, node, u);
      LeadsTransitive(c, s, u, t);
    }
  }
}
