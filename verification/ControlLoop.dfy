/**
  The operator loop (operator/operator.go), the autoscaler loop and the annotation they share
  (operator/elasticsearch.go) as one transition system. Every API call is a step of its own,
  so the two loops, the cluster and failures interleave between any two calls. An update is
  a compare-and-set on the resource version; a call that fails, and a process that stops and
  starts again, is the step Fail or ScalerFail.
*/
module ControlLoop {
  import opened Base
  import opened Sequences
  import opened Autoscaler
  import opened Pods
  import opened Metrics

  // ----- stored objects -----

  /** A scaling operation in the annotation; id is its position among all operations written. */
  datatype Pending = Pending(id: nat, operation: Operation)

  /** The ElasticsearchDataSet: spec.replicas, the scaling-operation annotation and the status. */
  datatype Eds = Eds(
    version: nat, replicas: Option<int>, pending: Option<Pending>,
    statusReplicas: int, lastUp: Option<int>, lastDown: Option<int>)

  datatype Sts = Sts(version: nat, replicas: int)

  /** edsReplicas: the desired node count, None for "don't touch". */
  function Desired(c: Settings, eds: Eds): Option<int> {
    if !c.enabled || eds.replicas.Some? then eds.replicas
    else if c.minReplicas <= 0 then None
    else Some(if eds.statusReplicas > c.minReplicas then eds.statusReplicas else c.minReplicas)
  }

  // ----- the operator loop -----

  datatype Pc =
    | Idle
    | Started        // operate: EDS read into cur
    | Preparing      // reconcileStatefulset: EDS read into sr
    | Reconciled     // StatefulSet read or created
    | Reported       // status updated
    | Selecting      // operatePods: EDS read into sr, not below desired
    | Surging        // about to add one replica for the rolling update
    | AwaitSurge | Marking | DrainingPod | Deleting
    | Rescaling      // rescaleStatefulSet entered
    | PreHook        // PreScaleDownHook of the copy in cur
    | Listing
    | ScaleDraining  // at the head of the draining loop
    | SliceChecked   // the settings were found unchanged for the next Pod to drain
    | AwaitResize | AwaitStable
    | FinalHook      // OnStableReplicasHook of the older copy in sr

  /**
    The local variables of one operate call. cur is the EDS copy read last, sr the one read when
    operatePods began and before that the one for the StatefulSet. target, slice, todo, drained
    and skipped belong to a rescale; known is how many operations had been written when cur was read.
  */
  datatype Loop = Loop(
    pc: Pc, cur: Eds, sr: Eds, sts: Sts, pod: Option<Pod>, up: bool, sent: nat,
    target: int, slice: seq<Pod>, todo: seq<Pod>, drained: seq<Pod>, skipped: seq<Pod>,
    aborted: bool, known: nat)

  // ----- the autoscaler loop -----

  datatype Scaler =
    | Resting
    | Listed(snap: Eds)
    | Decided(snap: Eds, op: Operation, current: int, hint: Direction)
    | Recorded(version: nat, replicas: int, op: Operation)

  /**
    Everything there is. written lists the operations ever put in the annotation, accepted
    the (operation, position) pairs Elasticsearch took, missing the operations whose sending
    a deleted index cut short, newest the last operation any index of which was sent, and
    losses the ready Pods lost other than by the operator since its last stability check.
  */
  datatype State = State(
    eds: Eds, sts: Option<Sts>, pods: map<int, Pod>, loop: Loop, scaler: Scaler, now: int,
    written: seq<Operation>, accepted: set<(nat, int)>, missing: set<nat>, newest: int, losses: nat)

  function ReadyPods(pods: map<int, Pod>): set<int> {
    set o | o in pods && pods[o].ready
  }

  function ReadyCount(pods: map<int, Pod>): nat {
    |ReadyPods(pods)|
  }

  /** waitForStableStatefulSet: the replica count and the number of ready replicas match. */
  predicate Stable(s: State) {
    s.sts.Some? && s.sts.value.replicas == ReadyCount(s.pods)
  }

  /** The Pod cache shows every marked Pod as marked: it reflects the operator's own writes. */
  ghost predicate CacheShowsMarks(pods: map<int, Pod>, view: seq<Pod>) {
    forall o :: o in pods && pods[o].draining ==>
      exists p :: p in view && p.draining && (pods[o].node != "" ==> p.node != "")
  }

  datatype Action =
    | Start
    | Prepare
    | Reconcile(touch: bool)
    | Report(write: bool)
    | Operate
    | SelectPod(x: Context, view: seq<Pod>, prioritized: seq<Pod>)
    | Surge
    | SurgeStable
    | Mark
    | DrainPod
    | Delete
    | Refresh
    | SkipHook
    | SendIndex
    | IndexMissing
    | RemoveAnnotation
    | ListPods(view: seq<Pod>, sorted: seq<Pod>)
    | AbortDrain
    | CheckSlice
    | SkipPending
    | DrainNext
    | Resize
    | ResizeStable
    | AllStable
    | Fail
    | ListEds
    | DecideScaling(interval: int, metrics: Option<seq<Sample>>, first: seq<Index>, second: seq<Index>, disk: seq<real>)
    | RecordScaling
    | PublishScaling
    | ScalerFail
    | EnvPods(pods: map<int, Pod>)
    | EnvTouchEds
    | EnvTouchSts
    | EnvEdit(replicas: Option<int>)
    | Tick(seconds: nat)

  /** Which part of the code, or who else, an action belongs to. */
  datatype Group = OfOperate | OfUpdate | OfRescale | OfDrain | OfHook | OfScaler | OfEnvironment

  function GroupOf(a: Action): Group {
    match a
    case Start => OfOperate
    case Prepare => OfOperate
    case Reconcile(_) => OfOperate
    case Report(_) => OfOperate
    case Operate => OfOperate
    case Fail => OfOperate
    case SelectPod(_, _, _) => OfUpdate
    case Surge => OfUpdate
    case SurgeStable => OfUpdate
    case Mark => OfUpdate
    case DrainPod => OfUpdate
    case Delete => OfUpdate
    case Refresh => OfRescale
    case Resize => OfRescale
    case ResizeStable => OfRescale
    case AllStable => OfRescale
    case ListPods(_, _) => OfDrain
    case AbortDrain => OfDrain
    case CheckSlice => OfDrain
    case SkipPending => OfDrain
    case DrainNext => OfDrain
    case SkipHook => OfHook
    case SendIndex => OfHook
    case IndexMissing => OfHook
    case RemoveAnnotation => OfHook
    case ListEds => OfScaler
    case DecideScaling(_, _, _, _, _) => OfScaler
    case RecordScaling => OfScaler
    case PublishScaling => OfScaler
    case ScalerFail => OfScaler
    case _ => OfEnvironment
  }

  /** A step of the operator loop. */
  predicate LoopMoves(a: Action) {
    GroupOf(a) != OfScaler && GroupOf(a) != OfEnvironment
  }

  // ----- operate -----

  ghost predicate StartStep(s: State, t: State) {
    && s.loop.pc == Idle
    && t == s.(loop := s.loop.(pc := Started, cur := s.eds))
  }

  ghost predicate PrepareStep(s: State, t: State) {
    && s.loop.pc == Started
    && t == s.(loop := s.loop.(pc := Preparing, sr := s.eds))
  }

  /** Creating the StatefulSet is refused below one replica; an unset count defaults to one. */
  ghost predicate ReconcileStep(c: Settings, s: State, touch: bool, t: State) {
    && s.loop.pc == Preparing
    && match s.sts
       case None =>
         var wanted := match Desired(c, s.loop.sr) case None => 1 case Some(n) => n;
         && wanted >= 1
         && t == s.(sts := Some(Sts(0, wanted)), loop := s.loop.(pc := Reconciled, sts := Sts(0, wanted)))
       case Some(sts) =>
         var now := if touch then sts.(version := sts.version + 1) else sts;
         t == s.(sts := Some(now), loop := s.loop.(pc := Reconciled, sts := now))
  }

  /** UpdateStatus writes when the replica count changed or, per write, the generation did. */
  ghost predicate ReportStep(s: State, write: bool, t: State) {
    && s.loop.pc == Reconciled
    && if write || s.loop.cur.statusReplicas != s.loop.sts.replicas then
         && s.eds.version == s.loop.cur.version
         && t == s.(loop := s.loop.(pc := Reported),
                    eds := s.eds.(version := s.eds.version + 1, statusReplicas := s.loop.sts.replicas,
                                  lastUp := s.loop.cur.lastUp, lastDown := s.loop.cur.lastDown))
       else
         t == s.(loop := s.loop.(pc := Reported))
  }

  // ----- operatePods -----

  ghost predicate OperateStep(c: Settings, s: State, t: State) {
    && s.loop.pc == Reported
    && var desired := Desired(c, s.eds);
       if desired.Some? && s.loop.sts.replicas < desired.value then
         t == s.(loop := s.loop.(pc := Rescaling, sr := s.eds, up := true))
       else
         t == s.(loop := s.loop.(pc := Selecting, sr := s.eds))
  }

  ghost predicate SelectStep(c: Settings, s: State, x: Context, view: seq<Pod>, r: seq<Pod>, t: State) {
    && s.loop.pc == Selecting
    && CacheShowsMarks(s.pods, view) && AllNumbered(view)
    && x.desired == Desired(c, s.loop.sr) && x.replicas == s.loop.sts.replicas
    && Prioritized(x, view, r)
    && match PodToUpdate(r)
       case None => t == s.(loop := s.loop.(pc := Rescaling, up := false))
       case Some(pod) =>
         t == s.(loop := s.loop.(pod := Some(pod),
                                 pc := if Desired(c, s.loop.sr) == Some(s.loop.sts.replicas) then Surging
                                       else AwaitSurge))
  }

  ghost predicate SurgeStep(s: State, t: State) {
    && s.loop.pc == Surging
    && s.sts.Some? && s.sts.value.version == s.loop.sts.version
    && var more := s.loop.sts.replicas + 1;
       t == s.(sts := Some(Sts(s.sts.value.version + 1, more)),
               loop := s.loop.(pc := AwaitSurge, sts := s.loop.sts.(replicas := more)))
  }

  ghost predicate SurgeStableStep(s: State, t: State) {
    && s.loop.pc == AwaitSurge && Stable(s)
    && t == s.(loop := s.loop.(pc := Marking), losses := 0)
  }

  /** The annotation is patched by Pod name, unless the cached Pod already carries it. */
  ghost predicate MarkStep(s: State, t: State) {
    && s.loop.pc == Marking && s.loop.pod.Some? && s.loop.pod.value.ordinal.Some?
    && var o := s.loop.pod.value.ordinal.value;
       if s.loop.pod.value.draining then
         t == s.(loop := s.loop.(pc := DrainingPod))
       else
         && o in s.pods
         && t == s.(loop := s.loop.(pc := DrainingPod), pods := s.pods[o := s.pods[o].(draining := true)])
  }

  ghost predicate DrainPodStep(s: State, t: State) {
    && s.loop.pc == DrainingPod
    && t == s.(loop := s.loop.(pc := Deleting))
  }

  ghost predicate DeleteStep(s: State, t: State) {
    && s.loop.pc == Deleting && s.loop.pod.Some? && s.loop.pod.value.ordinal.Some?
    && s.loop.pod.value.ordinal.value in s.pods
    && t == s.(loop := s.loop.(pc := FinalHook, sent := 0), pods := s.pods - {s.loop.pod.value.ordinal.value})
  }

  // ----- rescaleStatefulSet -----

  function AfterRescale(l: Loop): Loop {
    if l.up then l.(pc := FinalHook, sent := 0) else l.(pc := AwaitStable)
  }

  /** The local variables with which a rescale starts. */
  function BeginRescale(s: State): Loop {
    s.loop.(cur := s.eds, known := |s.written|, sent := 0, aborted := false, drained := [], skipped := [])
  }

  ghost predicate RefreshStep(c: Settings, s: State, t: State) {
    && s.loop.pc == Rescaling
    && var l := BeginRescale(s);
       var desired := Desired(c, s.eds);
       if desired.None? || desired.value == l.sts.replicas then
         t == s.(loop := AfterRescale(l))
       else if desired.value > l.sts.replicas then
         t == s.(loop := l.(pc := Listing, target := desired.value))
       else if l.sts.replicas == 0 then
         t == s.(loop := l.(pc := Listing, target := 0))
       else
         t == s.(loop := l.(pc := PreHook))
  }

  /** Sorted Pods from position target on are drained; fewer Pods than that leave nothing to drain. */
  ghost predicate ListStep(s: State, view: seq<Pod>, sorted: seq<Pod>, t: State) {
    && s.loop.pc == Listing
    && AllNumbered(view) && IsSortOf(sorted, view, ByOrdinal())
    && var slice := if 0 <= s.loop.target < |sorted| then sorted[s.loop.target..] else [];
       t == s.(loop := s.loop.(pc := ScaleDraining, slice := slice, todo := slice))
  }

  /** The settings changed: desired replicas rose above those read before, or are unset. */
  predicate DrainAborts(c: Settings, cur: Eds, latest: Eds) {
    var before, after := Desired(c, cur), Desired(c, latest);
    after.None? || (before.Some? && after.value > before.value)
  }

  ghost predicate AbortDrainStep(c: Settings, s: State, t: State) {
    && s.loop.pc == ScaleDraining && s.loop.todo != []
    && DrainAborts(c, s.loop.cur, s.eds)
    && t == s.(loop := s.loop.(todo := [], aborted := true))
  }

  ghost predicate CheckSliceStep(c: Settings, s: State, t: State) {
    && s.loop.pc == ScaleDraining && s.loop.todo != []
    && !DrainAborts(c, s.loop.cur, s.eds)
    && t == s.(loop := s.loop.(pc := SliceChecked))
  }

  ghost predicate SkipPendingStep(s: State, t: State) {
    && s.loop.pc == SliceChecked && s.loop.todo != [] && s.loop.todo[0].pending
    && t == s.(loop := s.loop.(pc := ScaleDraining, todo := s.loop.todo[1..],
                               skipped := s.loop.skipped + [s.loop.todo[0]]))
  }

  ghost predicate DrainNextStep(s: State, t: State) {
    && s.loop.pc == SliceChecked && s.loop.todo != [] && !s.loop.todo[0].pending && Stable(s)
    && t == s.(loop := s.loop.(pc := ScaleDraining, todo := s.loop.todo[1..],
                               drained := s.loop.drained + [s.loop.todo[0]]))
  }

  ghost predicate ResizeStep(s: State, t: State) {
    && s.loop.pc == ScaleDraining && s.loop.todo == []
    && s.sts.Some? && s.sts.value.version == s.loop.sts.version
    && t == s.(sts := Some(Sts(s.sts.value.version + 1, s.loop.target)),
               loop := s.loop.(pc := AwaitResize, sts := s.loop.sts.(replicas := s.loop.target)))
  }

  ghost predicate ResizeStableStep(s: State, t: State) {
    && s.loop.pc == AwaitResize && Stable(s)
    && t == s.(loop := AfterRescale(s.loop))
  }

  ghost predicate AllStableStep(s: State, t: State) {
    && s.loop.pc == AwaitStable && Stable(s)
    && t == s.(loop := s.loop.(pc := FinalHook, sent := 0))
  }

  // ----- the two hooks: applyScalingOperation -----

  /** The operation a hook acts on, from its own copy of the EDS. */
  function HookOperation(l: Loop): Option<Pending> {
    var pending := if l.pc == PreHook then l.cur.pending else l.sr.pending;
    if pending.Some? && pending.value.operation.direction != NONE then pending else None
  }

  function HookVersion(l: Loop): nat {
    if l.pc == PreHook then l.cur.version else l.sr.version
  }

  function AfterHook(l: Loop): Loop {
    if l.pc == PreHook then l.(pc := Listing, target := l.sts.replicas - 1) else l.(pc := Idle)
  }

  predicate InHook(l: Loop) {
    l.pc == PreHook || l.pc == FinalHook
  }

  ghost predicate SkipHookStep(s: State, t: State) {
    && InHook(s.loop) && HookOperation(s.loop).None?
    && t == s.(loop := AfterHook(s.loop))
  }

  ghost predicate SendIndexStep(s: State, t: State) {
    && InHook(s.loop) && HookOperation(s.loop).Some?
    && var p := HookOperation(s.loop).value;
       && s.loop.sent < |p.operation.indexReplicas|
       && t == s.(loop := s.loop.(sent := s.loop.sent + 1), newest := Max(s.newest, p.id),
                  accepted := s.accepted + {(p.id, s.loop.sent)})
  }

  /** Elasticsearch answers 404: UpdateIndexSettings returns nil without sending the rest. */
  ghost predicate IndexMissingStep(s: State, t: State) {
    && InHook(s.loop) && HookOperation(s.loop).Some?
    && var p := HookOperation(s.loop).value;
       && s.loop.sent < |p.operation.indexReplicas|
       && t == s.(loop := s.loop.(sent := |p.operation.indexReplicas|), newest := Max(s.newest, p.id),
                  missing := s.missing + {p.id})
  }

  ghost predicate RemoveAnnotationStep(s: State, t: State) {
    && InHook(s.loop) && HookOperation(s.loop).Some?
    && s.loop.sent == |HookOperation(s.loop).value.operation.indexReplicas|
    && s.eds.version == HookVersion(s.loop)
    && t == s.(loop := AfterHook(s.loop), eds := s.eds.(version := s.eds.version + 1, pending := None))
  }

  // ----- scaleEDS and updateScalingOperation -----

  /** collectResources lists the EDS; what follows works on that copy. */
  ghost predicate ListEdsStep(s: State, t: State) {
    && s.scaler.Resting?
    && t == s.(scaler := Listed(s.eds))
  }

  ghost predicate DecideStep(c: Settings, s: State, a: Action, t: State)
    requires a.DecideScaling? && CrdMinima(c)
  {
    && s.scaler.Listed? && a.interval > 0
    && var snap := s.scaler.snap;
    && (snap.pending.None? || snap.pending.value.operation.direction == NONE)
    && Desired(c, snap).Some?
    && var current := Desired(c, snap).value;
       && (a.first != [] ==> Decidable(c, a.first, a.second, current))
       && var hint := Hint(c, a.interval, a.metrics, HintInput(snap.lastUp, snap.lastDown, s.now, s.now));
          t == s.(scaler := Decided(snap, CalculateOperation(c, a.first, a.second, hint, Some(current), a.disk),
                                    current, hint))
  }

  ghost predicate RecordStep(s: State, t: State) {
    && s.scaler.Decided?
    && var snap, nodes, current := s.scaler.snap, s.scaler.op.nodeReplicas, s.scaler.current;
       if nodes.Some? && nodes.value != current then
         && s.eds.version == snap.version
         && t == s.(scaler := Recorded(s.eds.version + 1, nodes.value, s.scaler.op),
                    eds := s.eds.(version := s.eds.version + 1,
                                  lastUp := if nodes.value > current then Some(s.now) else s.eds.lastUp,
                                  lastDown := if nodes.value > current then s.eds.lastDown else Some(s.now)))
       else
         t == s.(scaler := Recorded(snap.version, current, s.scaler.op))
  }

  ghost predicate PublishStep(s: State, t: State) {
    && s.scaler.Recorded?
    && if s.scaler.op.direction == NONE then t == s.(scaler := Resting)
       else
         && s.eds.version == s.scaler.version
         && t == s.(scaler := Resting, written := s.written + [s.scaler.op],
                    eds := s.eds.(version := s.eds.version + 1, replicas := Some(s.scaler.replicas),
                                  pending := Some(Pending(|s.written|, s.scaler.op))))
  }

  // ----- the environment -----

  /** Nothing but the operator marks a Pod, and a marked Pod stays on its node once it has one. */
  ghost predicate NoNewMarks(before: map<int, Pod>, after: map<int, Pod>) {
    forall o :: o in after && after[o].draining ==>
      o in before && before[o].draining && (after[o].node == before[o].node || before[o].node == "")
  }

  /** Pods come, go and change in any other way. */
  ghost predicate EnvPodsStep(s: State, pods: map<int, Pod>, t: State) {
    && NoNewMarks(s.pods, pods)
    && t == s.(pods := pods, losses := s.losses + Max(0, ReadyCount(s.pods) - ReadyCount(pods)))
  }

  // ----- all steps -----

  /** operate up to operatePods; Fail is a call that fails or a process that restarts. */
  ghost predicate OperateAction(c: Settings, s: State, a: Action, t: State) {
    match a
    case Start => StartStep(s, t)
    case Prepare => PrepareStep(s, t)
    case Reconcile(touch) => ReconcileStep(c, s, touch, t)
    case Report(write) => ReportStep(s, write, t)
    case Operate => OperateStep(c, s, t)
    case Fail => t == s.(loop := s.loop.(pc := Idle))
    case _ => false
  }

  /** The rolling update of one Pod. */
  ghost predicate UpdateAction(c: Settings, s: State, a: Action, t: State) {
    match a
    case SelectPod(x, view, r) => SelectStep(c, s, x, view, r, t)
    case Surge => SurgeStep(s, t)
    case SurgeStable => SurgeStableStep(s, t)
    case Mark => MarkStep(s, t)
    case DrainPod => DrainPodStep(s, t)
    case Delete => DeleteStep(s, t)
    case _ => false
  }

  ghost predicate RescaleAction(c: Settings, s: State, a: Action, t: State) {
    match a
    case Refresh => RefreshStep(c, s, t)
    case Resize => ResizeStep(s, t)
    case ResizeStable => ResizeStableStep(s, t)
    case AllStable => AllStableStep(s, t)
    case _ => false
  }

  /** drainPodsForScaleDown. */
  ghost predicate DrainAction(c: Settings, s: State, a: Action, t: State) {
    match a
    case ListPods(view, sorted) => ListStep(s, view, sorted, t)
    case AbortDrain => AbortDrainStep(c, s, t)
    case CheckSlice => CheckSliceStep(c, s, t)
    case SkipPending => SkipPendingStep(s, t)
    case DrainNext => DrainNextStep(s, t)
    case _ => false
  }

  ghost predicate HookAction(s: State, a: Action, t: State) {
    match a
    case SkipHook => SkipHookStep(s, t)
    case SendIndex => SendIndexStep(s, t)
    case IndexMissing => IndexMissingStep(s, t)
    case RemoveAnnotation => RemoveAnnotationStep(s, t)
    case _ => false
  }

  ghost predicate ScalerAction(c: Settings, s: State, a: Action, t: State)
    requires CrdMinima(c)
  {
    match a
    case ListEds => ListEdsStep(s, t)
    case DecideScaling(_, _, _, _, _) => DecideStep(c, s, a, t)
    case RecordScaling => RecordStep(s, t)
    case PublishScaling => PublishStep(s, t)
    case ScalerFail => t == s.(scaler := Resting)
    case _ => false
  }

  ghost predicate EnvAction(s: State, a: Action, t: State) {
    match a
    case EnvPods(pods) => EnvPodsStep(s, pods, t)
    case EnvTouchEds => t == s.(eds := s.eds.(version := s.eds.version + 1))
    case EnvTouchSts => s.sts.Some? && t == s.(sts := Some(s.sts.value.(version := s.sts.value.version + 1)))
    case EnvEdit(replicas) => t == s.(eds := s.eds.(version := s.eds.version + 1, replicas := replicas))
    case Tick(seconds) => t == s.(now := s.now + seconds)
    case _ => false
  }

  ghost predicate Next(c: Settings, s: State, a: Action, t: State)
    requires CrdMinima(c)
  {
    || OperateAction(c, s, a, t)
    || UpdateAction(c, s, a, t)
    || RescaleAction(c, s, a, t)
    || DrainAction(c, s, a, t)
    || HookAction(s, a, t)
    || ScalerAction(c, s, a, t)
    || EnvAction(s, a, t)
  }

  // ----- what each group of steps leaves alone -----

  ghost predicate OperateFrame(s: State, t: State) {
    && t == s.(loop := t.loop, eds := t.eds, sts := t.sts)
    && t.loop == s.loop.(pc := t.loop.pc, cur := t.loop.cur, sr := t.loop.sr, sts := t.loop.sts, up := t.loop.up)
    && t.loop.pc in {Idle, Started, Preparing, Reconciled, Reported, Rescaling, Selecting}
    && (t.eds == s.eds
        || (t.eds.version == s.eds.version + 1 && t.eds.pending == s.eds.pending && t.eds.replicas == s.eds.replicas))
  }

  lemma OperateFrames(c: Settings, s: State, a: Action, t: State)
    requires OperateAction(c, s, a, t)
    ensures OperateFrame(s, t) && GroupOf(a) == OfOperate
  {
    hide Desired;
  }

  ghost predicate UpdateFrame(s: State, t: State) {
    && t == s.(loop := t.loop, sts := t.sts, pods := t.pods, losses := t.losses)
    && t.loop == s.loop.(pc := t.loop.pc, pod := t.loop.pod, sts := t.loop.sts, up := t.loop.up, sent := t.loop.sent)
    && s.loop.pc in {Selecting, Surging, AwaitSurge, Marking, DrainingPod, Deleting}
    && t.loop.pc in {Rescaling, Surging, AwaitSurge, Marking, DrainingPod, Deleting, FinalHook}
    && (t.loop.pc == Rescaling ==> s.loop.pc == Selecting)
    && (t.loop.pc == FinalHook ==> s.loop.pc == Deleting && t.loop.sent == 0)
  }

  lemma UpdateFrames(c: Settings, s: State, a: Action, t: State)
    requires UpdateAction(c, s, a, t)
    ensures UpdateFrame(s, t) && GroupOf(a) == OfUpdate
  {
    hide Desired, Prioritized, CacheShowsMarks, AllNumbered, Stable;
  }

  predicate RescalePc(pc: Pc) {
    pc in {Rescaling, PreHook, Listing, ScaleDraining, AwaitResize, AwaitStable, FinalHook, Idle}
  }

  ghost predicate RescaleFrame(s: State, t: State) {
    && t == s.(loop := t.loop, sts := t.sts)
    && t.loop.sr == s.loop.sr && t.loop.pod == s.loop.pod
    && RescalePc(s.loop.pc) && RescalePc(t.loop.pc)
  }

  lemma RescaleFrames(c: Settings, s: State, a: Action, t: State)
    requires RescaleAction(c, s, a, t)
    ensures RescaleFrame(s, t) && GroupOf(a) == OfRescale
    ensures a.Resize? || t.sts == s.sts
  {
  }

  ghost predicate DrainFrame(s: State, t: State) {
    && t == s.(loop := t.loop)
    && t.loop == s.loop.(pc := t.loop.pc, slice := t.loop.slice, todo := t.loop.todo,
                         drained := t.loop.drained, skipped := t.loop.skipped, aborted := t.loop.aborted)
    && s.loop.pc in {Listing, ScaleDraining, SliceChecked} && t.loop.pc in {ScaleDraining, SliceChecked}
  }

  lemma DrainFrames(c: Settings, s: State, a: Action, t: State)
    requires DrainAction(c, s, a, t)
    ensures DrainFrame(s, t) && GroupOf(a) == OfDrain
  {
    hide Desired, IsSortOf, AllNumbered, Stable;
  }

  ghost predicate HookFrame(s: State, t: State) {
    && t == s.(loop := t.loop, eds := t.eds, accepted := t.accepted, missing := t.missing, newest := t.newest)
    && t.loop == s.loop.(pc := t.loop.pc, sent := t.loop.sent, target := t.loop.target)
    && RescalePc(s.loop.pc) && RescalePc(t.loop.pc) && InHook(s.loop)
    && (t.eds == s.eds || t.eds == s.eds.(version := s.eds.version + 1, pending := None))
  }

  lemma HookFrames(s: State, a: Action, t: State)
    requires HookAction(s, a, t)
    ensures HookFrame(s, t) && GroupOf(a) == OfHook
  {
  }

  ghost predicate ScalerFrame(s: State, t: State) {
    t == s.(scaler := t.scaler, eds := t.eds, written := t.written)
  }

  lemma ScalerFrames(c: Settings, s: State, a: Action, t: State)
    requires CrdMinima(c) && ScalerAction(c, s, a, t)
    ensures ScalerFrame(s, t) && GroupOf(a) == OfScaler
  {
    hide CalculateOperation, Hint;
  }

  ghost predicate EnvFrame(s: State, t: State) {
    && t == s.(eds := t.eds, sts := t.sts, pods := t.pods, losses := t.losses, now := t.now)
    && (t.eds == s.eds
        || t.eds == s.eds.(version := s.eds.version + 1, replicas := t.eds.replicas))
    && (s.sts.Some? <==> t.sts.Some?)
    && (s.sts.Some? ==> t.sts.value.replicas == s.sts.value.replicas)
  }

  lemma EnvFrames(s: State, a: Action, t: State)
    requires EnvAction(s, a, t)
    ensures EnvFrame(s, t) && GroupOf(a) == OfEnvironment
  {
  }

  /** The group of an action says which kind of step it is. */
  lemma StepOfGroup(c: Settings, s: State, a: Action, t: State)
    requires CrdMinima(c) && Next(c, s, a, t)
    ensures match GroupOf(a)
            case OfOperate => OperateAction(c, s, a, t)
            case OfUpdate => UpdateAction(c, s, a, t)
            case OfRescale => RescaleAction(c, s, a, t)
            case OfDrain => DrainAction(c, s, a, t)
            case OfHook => HookAction(s, a, t)
            case OfScaler => ScalerAction(c, s, a, t)
            case OfEnvironment => EnvAction(s, a, t)
  {
    hide OperateAction, UpdateAction, RescaleAction, DrainAction, HookAction, ScalerAction, EnvAction, GroupOf;
    if OperateAction(c, s, a, t) {
      OperateFrames(c, s, a, t);
    } else if UpdateAction(c, s, a, t) {
      UpdateFrames(c, s, a, t);
    } else if RescaleAction(c, s, a, t) {
      RescaleFrames(c, s, a, t);
    } else if DrainAction(c, s, a, t) {
      DrainFrames(c, s, a, t);
    } else if HookAction(s, a, t) {
      HookFrames(s, a, t);
    } else if ScalerAction(c, s, a, t) {
      ScalerFrames(c, s, a, t);
    } else {
      EnvFrames(s, a, t);
    }
  }

  /** Both loops at rest, no operation written yet, no Pod marked. */
  ghost predicate Init(s: State) {
    && s.loop.pc == Idle && s.loop.known == 0 && s.scaler.Resting?
    && s.eds.pending.None? && s.written == [] && s.newest == -1
    && (forall o :: o in s.pods ==> !s.pods[o].draining)
  }

  ghost predicate Run(c: Settings, run: seq<State>, actions: seq<Action>)
    requires CrdMinima(c)
  {
    && |run| == |actions| + 1 && Init(run[0])
    && forall i :: 0 <= i < |actions| ==> Next(c, run[i], actions[i], run[i + 1])
  }

  lemma RunBegins(c: Settings, run: seq<State>, actions: seq<Action>)
    requires CrdMinima(c) && Run(c, run, actions)
    ensures |run| == |actions| + 1 && Init(run[0]) && run[0].loop.pc == Idle
  {
    hide Next;
  }

  lemma RunStep(c: Settings, run: seq<State>, actions: seq<Action>, i: nat)
    requires CrdMinima(c) && Run(c, run, actions)
    ensures |run| == |actions| + 1
    ensures i < |actions| ==> Next(c, run[i], actions[i], run[i + 1])
  {
    hide Next, Init;
  }
}
