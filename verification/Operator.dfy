/**
  The operator loop of operator/operator.go and the autoscaler's update of operator/elasticsearch.go
  as the code is written: methods that change the stored objects call by call. How the calls of a
  cycle turn out is a parameter; between any two calls the other loop and the cluster do what they
  like. Each method says which steps of the transition system it took, what it achieved when it
  returned nil, and that it returned an error only for a reason.
*/
module Operator {
  import opened Base
  import opened Sequences
  import opened Autoscaler
  import opened Pods
  import opened ControlLoop
  import opened ScaleInSafety
  import opened Traces

  // ----- how the calls of a cycle turn out -----

  /** What Elasticsearch answers to the PUT of one index. */
  datatype Answer = Updated | NotFound | Refused

  /** Whether the cluster is green when a hook asks, and the answer to each of its PUTs. */
  datatype Elastic = Elastic(green: bool, puts: nat -> Answer)

  /** What the Pod informer shows when it is asked, for the Pods there are at that moment. */
  type PodCache = map<int, Pod> -> seq<Pod>

  /**
    One cycle: how many API calls succeed before one fails, the nodes and the update revision, what
    the two listings of Pods show, whether the generation differs from the one the StatefulSet was
    made for and from the one observed, whether the cleanup succeeds, and Elasticsearch.
  */
  datatype Cycle = Cycle(
    calls: nat, x: Context, selecting: PodCache, draining: PodCache, touched: bool, observed: bool,
    cleanup: bool, pre: Elastic, final: Elastic)

  /** The cache reflects the operator's own marks; in other ways it may be behind. */
  ghost predicate Faithful(cache: PodCache) {
    forall pods :: CacheShowsMarks(pods, cache(pods))
  }

  function ElasticFor(cycle: Cycle, l: Loop): Elastic {
    if l.pc == PreHook then cycle.pre else cycle.final
  }

  // ----- steps and the calls they take -----

  /** The steps of the operator loop among all. */
  function Own(actions: seq<Action>): seq<Action> {
    StepsOf(actions, LoopMoves)
  }

  /** The API calls a step ends with; the PUTs of a hook have answers of their own. */
  function Calls(a: Action): nat {
    match a
    case SkipPending => 0
    case SkipHook => 0
    case SendIndex => 0
    case IndexMissing => 0
    case Fail => 0
    case _ => 1
  }

  function Spent(steps: seq<Action>): nat {
    if steps == [] then 0 else Spent(steps[..|steps| - 1]) + Calls(steps[|steps| - 1])
  }

  lemma SpentMore(steps: seq<Action>, a: Action)
    ensures Spent(steps + [a]) == Spent(steps) + Calls(a)
  {
    assert (steps + [a])[..|steps|] == steps;
  }

  lemma OwnMore(actions: seq<Action>, a: Action)
    ensures Own(actions + [a]) == Own(actions) + if LoopMoves(a) then [a] else []
  {
    OneStepMore(actions, LoopMoves, a);
  }

  // ----- why a cycle may return an error -----

  predicate StsMoved(s: State) {
    s.sts.None? || s.sts.value.version != s.loop.sts.version
  }

  /** The status has to be written: the size or the generation is not the one in the copy. */
  predicate ReportNeeded(cycle: Cycle, l: Loop) {
    cycle.observed || l.cur.statusReplicas != l.sts.replicas
  }

  /** The selected Pod, whose mark the cache did not show, is not there any more. */
  predicate TargetGone(s: State) {
    s.loop.pod.Some? && s.loop.pod.value.ordinal.Some? && s.loop.pod.value.ordinal.value !in s.pods
  }

  predicate HookFails(e: Elastic, s: State) {
    HookOperation(s.loop).Some? &&
    var n := |HookOperation(s.loop).value.operation.indexReplicas|;
    || (n > 0 && !e.green)
    || (s.loop.sent < n && e.puts(s.loop.sent) == Refused)
    || (s.loop.sent == n && s.eds.version != HookVersion(s.loop))
  }

  /** The next call fails, or something other than a failing call stands in the way at this point. */
  ghost predicate MayFail(c: Settings, cycle: Cycle, s: State, left: nat, begun: bool) {
    left == 0 ||
    match s.loop.pc
    case Preparing => s.sts.None? && Desired(c, s.loop.sr).Some? && Desired(c, s.loop.sr).value < 1
    case Reconciled => ReportNeeded(cycle, s.loop) && s.eds.version != s.loop.cur.version
    case Selecting => !AllNumbered(cycle.selecting(s.pods))
    case Surging => StsMoved(s)
    case AwaitSurge => !Stable(s)
    case Marking => TargetGone(s) && !s.loop.pod.value.draining
    case Deleting => TargetGone(s)
    case PreHook => HookFails(cycle.pre, s)
    case Listing => !AllNumbered(cycle.draining(s.pods))
    case SliceChecked => !Stable(s)
    case ScaleDraining => s.loop.todo == [] && StsMoved(s)
    case AwaitResize => !Stable(s)
    case AwaitStable => !Stable(s)
    case FinalHook => HookFails(cycle.final, s)
    case Idle => begun && !cycle.cleanup
    case _ => false
  }

  /** The last step is the failure, at a point where it may fail with the calls left by then. */
  ghost predicate FailedRightly(c: Settings, cycle: Cycle, run: seq<State>, actions: seq<Action>) {
    && |run| == |actions| + 1 >= 2 && actions[|actions| - 1] == Fail
    && Spent(Own(actions)) <= cycle.calls
    && MayFail(c, cycle, run[|run| - 2], cycle.calls - Spent(Own(actions)), |Own(actions)| > 1)
  }

  // ----- what a cycle that returns nil has done -----

  /** The size a new StatefulSet gets. */
  function Wanted(c: Settings, sr: Eds): int {
    if Desired(c, sr).Some? then Desired(c, sr).value else 1
  }

  /** Where a rescale from n replicas goes, by the copy of the EDS it read. */
  function RescaleTarget(c: Settings, cur: Eds, n: int): int {
    var desired := Desired(c, cur);
    if desired.None? then n
    else if desired.value >= n then desired.value
    else if n == 0 then 0
    else n - 1
  }

  /** A desired count has risen above another, or is no longer set. */
  predicate CountRose(before: Option<int>, now: Option<int>) {
    match now
    case None => true
    case Some(n) => before.Some? && n > before.value
  }

  /** Where rescaleStatefulSet returns to. */
  predicate RescaleDone(before: Loop, after: Loop) {
    && after.sr == before.sr && after.pod == before.pod && after.up == before.up
    && if after.up then after.pc == FinalHook && after.sent == 0 else after.pc == AwaitStable
  }

  /** The steps of a rolling update of one Pod. */
  function UpdateSteps(surge: bool): seq<Action> {
    (if surge then [Surge] else []) + [SurgeStable, Mark, DrainPod, Delete]
  }

  /** From the selection on: the selected Pod was updated, or there was none and the size was set. */
  ghost predicate SelectedAndDone(c: Settings, cycle: Cycle, n: int, steps: seq<Action>, l: Loop) {
    && |steps| >= 2 && steps[0].SelectPod?
    && var desired := Desired(c, l.sr);
       && steps[0].x == cycle.x.(desired := desired, replicas := n)
       && match PodToUpdate(steps[0].prioritized)
          case None => steps[1] == Refresh && l.sts.replicas == RescaleTarget(c, l.cur, n)
          case Some(pod) =>
            var updated := UpdateSteps(desired == Some(n));
            && l.pod == Some(pod) && l.sts.replicas == (if desired == Some(n) then n + 1 else n)
            && |steps| > 1 + |updated| && steps[1..1 + |updated|] == updated
  }

  /**
    operatePods on a StatefulSet of n replicas, by its steps and the variables it leaves: a
    scale-up if the size is too small, else the update of the selected Pod, else a rescale.
  */
  ghost predicate Operated(c: Settings, cycle: Cycle, n: int, steps: seq<Action>, l: Loop) {
    && |steps| >= 3 && steps[0] == Action.Operate
    && var desired := Desired(c, l.sr);
       if desired.Some? && n < desired.value then
         steps[1] == Refresh && l.sts.replicas == RescaleTarget(c, l.cur, n)
       else
         SelectedAndDone(c, cycle, n, steps[1..], l)
  }

  /** A whole cycle that returned nil. */
  ghost predicate Completed(c: Settings, cycle: Cycle, run: seq<State>, actions: seq<Action>)
    requires |run| > 0
  {
    var steps := Own(actions);
    && |steps| >= 7 && steps[0] == Start && steps[1] == Prepare && steps[2].Reconcile?
    && steps[3] == Report(cycle.observed)
    && exists n :: SizeOr(run[0], n) && Operated(c, cycle, n, steps[4..], run[|run| - 1].loop)
  }

  /** The size of the StatefulSet, or of one that is created. */
  predicate SizeOr(s: State, n: int) {
    if s.sts.Some? then n == s.sts.value.replicas else n >= 1
  }

  ghost predicate CycleOutcome(c: Settings, cycle: Cycle, run: seq<State>, actions: seq<Action>, ok: bool)
    requires CrdMinima(c)
  {
    && Trace(c, run, actions)
    && if ok then Completed(c, cycle, run, actions) else FailedRightly(c, cycle, run, actions)
  }

  lemma DoneBy(c: Settings, cycle: Cycle, n: int, surge: bool, chosen: Action, more: seq<Action>, last: seq<Action>,
               l: Loop)
    requires chosen.SelectPod? && more != [] && last != []
    requires chosen.x == cycle.x.(desired := Desired(c, l.sr), replicas := n)
    requires match PodToUpdate(chosen.prioritized)
             case None => more[0] == Refresh && l.sts.replicas == RescaleTarget(c, l.cur, n)
             case Some(pod) => more == UpdateSteps(surge) && l.pod == Some(pod)
                               && (surge <==> Desired(c, l.sr) == Some(n))
                               && l.sts.replicas == if surge then n + 1 else n
    ensures SelectedAndDone(c, cycle, n, [chosen] + more + last, l)
  {
    var steps := [chosen] + more + last;
    assert steps[1..1 + |more|] == more;
    hide RescaleTarget, Desired, UpdateSteps;
  }

  lemma UpdateTakesSteps(surge: bool)
    ensures UpdateSteps(surge) != []
  {
  }

  lemma CompletedBy(c: Settings, cycle: Cycle, run: seq<State>, actions: seq<Action>, n: int, touched: bool,
                    rest: seq<Action>)
    requires |run| > 0 && SizeOr(run[0], n) && Operated(c, cycle, n, rest, run[|run| - 1].loop)
    requires Own(actions) == [Start] + [Prepare, Reconcile(touched)] + [Report(cycle.observed)] + rest
    ensures Completed(c, cycle, run, actions)
  {
    assert Own(actions)[4..] == rest;
    assert |rest| >= 3;
    hide Operated, Own;
  }

  /** The run of one cycle, and whether it returned nil. */
  datatype Outcome = Outcome(run: seq<State>, actions: seq<Action>, ok: bool)

  function LastOf(r: Outcome): State
    requires |r.run| > 0
  {
    r.run[|r.run| - 1]
  }

  /** Each cycle begins where the one before it ended. */
  ghost predicate Chained(log: seq<Outcome>, first: State, last: State) {
    && (forall i :: 0 <= i < |log| ==> |log[i].run| > 0)
    && (forall i :: 0 < i < |log| ==> log[i].run[0] == LastOf(log[i - 1]))
    && if log == [] then first == last else log[0].run[0] == first && LastOf(log[|log| - 1]) == last
  }

  lemma ChainedOn(log: seq<Outcome>, first: State, next: State, r: Outcome)
    requires Chained(log, first, next) && |r.run| > 0 && r.run[0] == next
    ensures Chained(log + [r], first, LastOf(r))
  {
  }

  ghost predicate Explained(c: Settings, cycle: Cycle, r: Outcome)
    requires CrdMinima(c)
  {
    |r.run| > 0 && CycleOutcome(c, cycle, r.run, r.actions, r.ok)
  }

  /** What the hooks have sent so far is the same. */
  ghost predicate SameHistory(s: State, t: State) {
    t.accepted == s.accepted && t.missing == s.missing && t.newest == s.newest
  }

  /** Nobody but the operator loop creates, deletes or resizes the StatefulSet. */
  ghost predicate SameSize(s: State, t: State) {
    (s.sts.Some? <==> t.sts.Some?) && (s.sts.Some? ==> t.sts.value.replicas == s.sts.value.replicas)
  }

  /** The pairs (operation, position) of the first n indices of an operation. */
  ghost function Pairs(id: nat, n: nat): set<(nat, int)> {
    set k | 0 <= k < n :: (id, k)
  }

  lemma NoPairs(id: nat)
    ensures Pairs(id, 0) == {}
  {
  }

  lemma OnePairMore(id: nat, n: nat)
    ensures Pairs(id, n + 1) == Pairs(id, n) + {(id, n)}
  {
  }

  /** Every index of the operation was accepted, or a deleted one cut the sending short. */
  ghost predicate CarriedOut(operation: Option<Pending>, s: State) {
    operation.Some? ==>
      var p := operation.value;
      p.id in s.missing || Pairs(p.id, |p.operation.indexReplicas|) <= s.accepted
  }

  /** How UpdateIndexSettings ends: whether it returns nil, and how many indices were updated by then. */
  ghost predicate Ends(count: nat, e: Elastic, ok: bool, updated: nat) {
    && updated <= count
    && (forall i :: 0 <= i < updated ==> e.puts(i) == Updated)
    && (count != 0 && !e.green ==> !ok && updated == 0)
    && (count == 0 || e.green ==>
          if updated == count then ok else e.puts(updated) != Updated && (ok <==> e.puts(updated) == NotFound))
  }

  class World {
    var s: State
    /** The cycle under way and how many of its calls still succeed. */
    var cycle: Cycle
    var left: nat
    /** Where the cycle began, and the run since then. */
    ghost var first: State
    ghost var run: seq<State>
    ghost var actions: seq<Action>

    ghost predicate Reached(c: Settings)
      reads this
    {
      && CrdMinima(c) && |run| == |actions| + 1 && Trace(c, run, actions) && run[0] == first && run[|actions|] == s
      && left + Spent(Own(actions)) == cycle.calls
    }

    /** The steps the operator loop has taken in this cycle. */
    ghost function Steps(): seq<Action>
      reads this
    {
      Own(actions)
    }

    ghost predicate Failed(c: Settings)
      reads this
    {
      s.loop.pc == Idle && FailedRightly(c, cycle, run, actions)
    }

    constructor (c: Settings, init: State, next: Cycle)
      requires CrdMinima(c)
      ensures Reached(c) && s == first == init && Steps() == [] && cycle == next && left == next.calls
    {
      s, first, cycle, left, run, actions := init, init, next, next.calls, [init], [];
    }

    // ----- calls -----

    /**
      What others do between two calls of the operator loop. The body does nothing; callers may
      rely on the contract only, which allows any steps that leave the loop and its history alone.
    */
    method Others(c: Settings)
      requires Reached(c)
      modifies this`s, this`run, this`actions
      ensures Reached(c) && Steps() == old(Steps())
      ensures s.loop == old(s.loop) && SameHistory(old(s), s) && SameSize(old(s), s)
    {
    }

    /** The loop takes one step. */
    method Take(c: Settings, a: Action, t: State)
      requires Reached(c) && Next(c, s, a, t) && LoopMoves(a) && Calls(a) <= left
      modifies this`s, this`left, this`run, this`actions
      ensures Reached(c) && Steps() == old(Steps()) + [a]
      ensures s == t && left == old(left) - Calls(a)
      ensures |actions| > 0 && actions[|actions| - 1] == a && run[|run| - 2] == old(s)
    {
      hide Next, Trace, LoopMoves, Calls, Own, Spent;
      TraceGoesOn(c, run, actions, a, t);
      OwnMore(actions, a);
      SpentMore(Own(actions), a);
      s, left, run, actions := t, left - Calls(a), run + [t], actions + [a];
    }

    /** operate returns the error, and a later cycle begins afresh. */
    method Fails(c: Settings) returns (ok: bool)
      requires Reached(c) && MayFail(c, cycle, s, left, Steps() != [])
      modifies this`s, this`left, this`run, this`actions
      ensures Reached(c) && !ok && Failed(c)
      ensures s == old(s.(loop := s.loop.(pc := Idle))) && Steps() == old(Steps()) + [Fail]
    {
      hide Trace, MayFail, Next, Own, Spent;
      var t := s.(loop := s.loop.(pc := Idle));
      ByOperate(c, s, Fail, t);
      Take(c, Fail, t);
      ok := false;
    }

    /** One API call, made after whatever others did since the last one. */
    method Call(c: Settings) returns (ok: bool)
      requires Reached(c)
      modifies this`s, this`left, this`run, this`actions
      ensures Reached(c) && SameHistory(old(s), s) && SameSize(old(s), s)
      ensures ok <==> old(left) > 0
      ensures if ok then s.loop == old(s.loop) && left == old(left) && Steps() == old(Steps()) else Failed(c)
    {
      Others(c);
      ok := left > 0;
      if !ok {
        ok := Fails(c);
      }
    }

    /** waitForStableStatefulSet, which fails when the StatefulSet is not stable in time. */
    method WaitForStableStatefulSet(c: Settings) returns (ok: bool)
      requires Reached(c) && s.loop.pc in {AwaitSurge, AwaitResize, AwaitStable, SliceChecked}
      modifies this`s, this`left, this`run, this`actions
      ensures Reached(c) && SameSize(old(s), s)
      ensures if ok then left > 0 && Stable(s) && s.loop == old(s.loop) && left == old(left) && Steps() == old(Steps())
              else Failed(c)
    {
      hide Trace, Own, Spent, Stable;
      ok := Call(c);
      if ok && !Stable(s) {
        ok := Fails(c);
      }
      hide MayFail;
    }

    // ----- operate -----

    /** Run: one cycle after the other, whether the last one failed or not. */
    method Run(c: Settings, cycles: seq<Cycle>) returns (ghost log: seq<Outcome>)
      requires Reached(c) && s.loop.pc == Idle
      requires forall i :: 0 <= i < |cycles| ==> Faithful(cycles[i].selecting)
      modifies this
      ensures Reached(c) && s.loop.pc == Idle && |log| == |cycles| && Chained(log, old(s), s)
      ensures forall i :: 0 <= i < |cycles| ==> Explained(c, cycles[i], log[i])
    {
      hide CycleOutcome, Trace, Faithful, Own, Spent;
      log := [];
      for i := 0 to |cycles|
        invariant Reached(c) && s.loop.pc == Idle && |log| == i && Chained(log, old(s), s)
        invariant forall k :: 0 <= k < i ==> Explained(c, cycles[k], log[k])
      {
        ghost var before := s;
        var ok := Operate(c, cycles[i]);
        ChainedOn(log, old(s), before, Outcome(run, actions, ok));
        log := log + [Outcome(run, actions, ok)];
        hide Chained;
      }
    }

    method Operate(c: Settings, next: Cycle) returns (ok: bool)
      requires Reached(c) && s.loop.pc == Idle && Faithful(next.selecting)
      modifies this
      ensures Reached(c) && s.loop.pc == Idle && cycle == next && first == old(s)
      ensures CycleOutcome(c, next, run, actions, ok)
    {
      hide Reached, Failed, Trace, FailedRightly, Completed, Own, Spent, Operated, Faithful, Desired;
      Begin(c, next);
      ghost var rest;
      ok := ReadAndReport(c);
      ghost var n := s.loop.sts.replicas;
      if ok {
        ok, rest := OperatePods(c);
      }
      TraceSoFar(c);
      if ok {
        CompletedBy(c, cycle, run, actions, n, old(s).sts.Some? && cycle.touched, rest);
      } else {
        FailedAtRest(c);
      }
    }

    /** The part of operate before operatePods. */
    method ReadAndReport(c: Settings) returns (ok: bool)
      requires Reached(c) && s.loop.pc == Idle
      modifies this`s, this`left, this`run, this`actions
      ensures Reached(c)
      ensures if !ok then Failed(c)
              else && s.loop.pc == Reported && SizeOr(old(s), s.loop.sts.replicas)
                   && Steps() == old(Steps()) + [Start] + [Prepare, Reconcile(old(s).sts.Some? && cycle.touched)]
                                 + [Report(cycle.observed)]
    {
      hide Reached, Failed, Own, Desired, Wanted, ReportNeeded;
      ok := GetResource(c);
      if ok {
        ok := ReconcileStatefulset(c);
      }
      if ok {
        ok := UpdateStatus(c);
      }
    }

    method Begin(c: Settings, next: Cycle)
      requires Reached(c)
      modifies this
      ensures Reached(c) && s == first == old(s) && cycle == next && Steps() == []
    {
      first, cycle, left, run, actions := s, next, next.calls, [s], [];
    }

    lemma FailedAtRest(c: Settings)
      requires Failed(c)
      ensures s.loop.pc == Idle && FailedRightly(c, cycle, run, actions)
    {
      hide FailedRightly;
    }

    lemma TraceSoFar(c: Settings)
      requires Reached(c)
      ensures Trace(c, run, actions) && |run| > 0 && run[0] == first && run[|run| - 1] == s
    {
      hide Trace, Spent, Own;
    }

    method GetResource(c: Settings) returns (ok: bool)
      requires Reached(c) && s.loop.pc == Idle
      modifies this`s, this`left, this`run, this`actions
      ensures Reached(c) && SameSize(old(s), s)
      ensures if ok then s.loop == old(s.loop).(pc := Started, cur := s.eds)
                         && Steps() == old(Steps()) + [Start]
              else Failed(c)
    {
      hide Trace, Next, MayFail, Own, Spent;
      ok := Call(c);
      if ok {
        var t := s.(loop := s.loop.(pc := Started, cur := s.eds));
        ByOperate(c, s, Start, t);
        Take(c, Start, t);
      }
    }

    method GetForStatefulSet(c: Settings) returns (ok: bool)
      requires Reached(c) && s.loop.pc == Started
      modifies this`s, this`left, this`run, this`actions
      ensures Reached(c) && SameSize(old(s), s)
      ensures if ok then s.loop.pc == Preparing && s.loop.sr == s.eds && Steps() == old(Steps()) + [Prepare]
              else Failed(c)
    {
      hide Trace, Next, MayFail, Own, Spent;
      ok := Call(c);
      if ok {
        var t := s.(loop := s.loop.(pc := Preparing, sr := s.eds));
        ByOperate(c, s, Prepare, t);
        Take(c, Prepare, t);
      }
    }

    /** Creates the StatefulSet, but not below one replica, or leaves its size alone. */
    method ReconcileStatefulset(c: Settings) returns (ok: bool)
      requires Reached(c) && s.loop.pc == Started
      modifies this`s, this`left, this`run, this`actions
      ensures Reached(c)
      ensures if ok then s.loop.pc == Reconciled && s.sts == Some(s.loop.sts)
                         && Steps() == old(Steps()) + [Prepare, Reconcile(old(s).sts.Some? && cycle.touched)]
                         && s.loop.sts.replicas == (if old(s).sts.Some? then old(s).sts.value.replicas
                                                    else Wanted(c, s.loop.sr))
                         && (old(s).sts.None? ==> s.loop.sts.replicas >= 1)
              else Failed(c)
    {
      hide Trace, Next, MayFail, Own, Spent;
      ok := GetForStatefulSet(c);
      if !ok {
        return;
      }
      ok := Call(c);
      if !ok {
        return;
      }
      if s.sts.None? {
        ok := CreateStatefulSet(c);
      } else {
        TouchStatefulSet(c);
      }
    }

    method CreateStatefulSet(c: Settings) returns (ok: bool)
      requires Reached(c) && s.loop.pc == Preparing && s.sts.None? && left > 0
      modifies this`s, this`left, this`run, this`actions
      ensures Reached(c)
      ensures ok <==> Wanted(c, old(s.loop.sr)) >= 1
      ensures if ok then s.loop.pc == Reconciled && s.loop.sr == old(s.loop.sr) && s.sts == Some(s.loop.sts)
                         && Steps() == old(Steps()) + [Reconcile(false)]
                         && s.loop.sts.replicas == Wanted(c, s.loop.sr)
              else Failed(c)
    {
      hide Trace, Next, Own, Spent, Desired;
      var desired := Desired(c, s.loop.sr);
      if desired.Some? && desired.value < 1 {
        ok := Fails(c);
        return;
      }
      hide MayFail;
      var sts := Sts(0, if desired.Some? then desired.value else 1);
      var t := s.(sts := Some(sts), loop := s.loop.(pc := Reconciled, sts := sts));
      ByOperate(c, s, Reconcile(false), t);
      Take(c, Reconcile(false), t);
      ok := true;
    }

    /** An update when the generation of the EDS is not the one the StatefulSet was made for. */
    method TouchStatefulSet(c: Settings)
      requires Reached(c) && s.loop.pc == Preparing && s.sts.Some? && left > 0
      modifies this`s, this`left, this`run, this`actions
      ensures Reached(c)
      ensures s.loop.pc == Reconciled && s.sts == Some(s.loop.sts)
      ensures s.loop.sts.replicas == old(s.sts.value.replicas)
      ensures Steps() == old(Steps()) + [Reconcile(cycle.touched)]
    {
      hide Trace, Next, MayFail, Own, Spent;
      var sts := if cycle.touched then s.sts.value.(version := s.sts.value.version + 1) else s.sts.value;
      var t := s.(sts := Some(sts), loop := s.loop.(pc := Reconciled, sts := sts));
      ByOperate(c, s, Reconcile(cycle.touched), t);
      Take(c, Reconcile(cycle.touched), t);
    }

    /** Reports the size, if the copy of the EDS does not have it yet, on the version of that copy. */
    method UpdateStatus(c: Settings) returns (ok: bool)
      requires Reached(c) && s.loop.pc == Reconciled
      modifies this`s, this`left, this`run, this`actions
      ensures Reached(c) && SameSize(old(s), s)
      ensures if ok then s.loop == old(s.loop.(pc := Reported)) && Steps() == old(Steps()) + [Report(cycle.observed)]
                         && (ReportNeeded(cycle, s.loop) ==>
                               && s.eds.statusReplicas == s.loop.sts.replicas && s.eds.version == s.loop.cur.version + 1
                               && s.eds.lastUp == s.loop.cur.lastUp && s.eds.lastDown == s.loop.cur.lastDown)
              else Failed(c)
    {
      hide Trace, Next, Own, Spent;
      ok := Call(c);
      if !ok {
        return;
      }
      if !ReportNeeded(cycle, s.loop) {
        hide MayFail;
        var t := s.(loop := s.loop.(pc := Reported));
        ByOperate(c, s, Report(cycle.observed), t);
        Take(c, Report(cycle.observed), t);
      } else if s.eds.version != s.loop.cur.version {
        ok := Fails(c);
      } else {
        hide MayFail;
        var t := s.(loop := s.loop.(pc := Reported),
                    eds := s.eds.(version := s.eds.version + 1, statusReplicas := s.loop.sts.replicas,
                                  lastUp := s.loop.cur.lastUp, lastDown := s.loop.cur.lastDown));
        ByOperate(c, s, Report(cycle.observed), t);
        Take(c, Report(cycle.observed), t);
      }
    }

    // ----- operatePods -----

    /** Updates one Pod, or sets the size when there is none to update or the size is too small. */
    method OperatePods(c: Settings) returns (ok: bool, ghost rest: seq<Action>)
      requires Reached(c) && s.loop.pc == Reported && Faithful(cycle.selecting)
      modifies this`s, this`left, this`run, this`actions
      ensures Reached(c)
      ensures if ok then s.loop.pc == Idle && Steps() == old(Steps()) + rest
                         && Operated(c, cycle, old(s.loop.sts.replicas), rest, s.loop)
              else Failed(c)
    {
      hide Reached, Failed, Own, Faithful, RescaleTarget, UpdateSteps;
      rest := [];
      ghost var more;
      ok := GetForPods(c);
      if !ok {
        return;
      }
      // prefer scale up over draining nodes
      if s.loop.pc == Rescaling {
        ok, more := ScaleUp(c);
      } else {
        ok, more := UpdateOrRescale(c);
      }
      rest := [Action.Operate] + more;
    }

    method ScaleUp(c: Settings) returns (ok: bool, ghost rest: seq<Action>)
      requires Reached(c) && s.loop.pc == Rescaling && s.loop.up
      modifies this`s, this`left, this`run, this`actions
      ensures Reached(c)
      ensures if !ok then Failed(c)
              else && s.loop.pc == Idle && Steps() == old(Steps()) + rest && |rest| >= 2 && rest[0] == Refresh
                   && s.loop.sr == old(s.loop.sr)
                   && s.loop.sts.replicas == RescaleTarget(c, s.loop.cur, old(s.loop.sts.replicas))
    {
      hide Reached, Failed, Own, RescaleTarget, Stable, Select, CarriedOut;
      ghost var last;
      ok, rest := RescaleStatefulSet(c);
      if ok {
        ok, last := OnStableReplicasHook(c);
        rest := rest + last;
      }
    }

    method UpdateOrRescale(c: Settings) returns (ok: bool, ghost rest: seq<Action>)
      requires Reached(c) && s.loop.pc == Selecting && Faithful(cycle.selecting)
      modifies this`s, this`left, this`run, this`actions
      ensures Reached(c)
      ensures if !ok then Failed(c)
              else && s.loop.pc == Idle && Steps() == old(Steps()) + rest && |rest| >= 2 && s.loop.sr == old(s.loop.sr)
                   && SelectedAndDone(c, cycle, old(s.loop.sts.replicas), rest, s.loop)
    {
      hide Reached, Failed, Own, Faithful, RescaleTarget, UpdateSteps, CarriedOut, Prioritized, SelectedAndDone,
           Desired, PodToUpdate, HookOperation, Stable;
      rest := [];
      ghost var chosen, more, last;
      ok, chosen := GetPodToUpdate(c);
      if !ok {
        return;
      }
      ghost var surge := s.loop.pc == Surging;
      ok, more := UpdateOrSettle(c);
      if !ok {
        return;
      }
      ok, last := OnStableReplicasHook(c);
      rest := [chosen] + more + last;
      if ok {
        DoneBy(c, cycle, old(s.loop.sts.replicas), surge, chosen, more, last, s.loop);
      }
    }

    method UpdateOrSettle(c: Settings) returns (ok: bool, ghost rest: seq<Action>)
      requires Reached(c)
      requires (s.loop.pc == Rescaling && !s.loop.up)
               || (s.loop.pc in {Surging, AwaitSurge} && s.loop.pod.Some? && s.loop.pod.value.ordinal.Some?)
      modifies this`s, this`left, this`run, this`actions
      ensures Reached(c)
      ensures var surge := old(s.loop.pc) == Surging;
              if !ok then Failed(c)
              else && s.loop.pc == FinalHook && s.loop.sent == 0 && Steps() == old(Steps()) + rest
                   && rest != [] && s.loop.sr == old(s.loop.sr)
                   && if old(s.loop.pc) == Rescaling then
                        && rest[0] == Refresh
                        && s.loop.sts.replicas == RescaleTarget(c, s.loop.cur, old(s.loop.sts.replicas))
                      else
                        && rest == UpdateSteps(surge) && s.loop.pod == old(s.loop.pod)
                        && s.loop.sts.replicas == old(s.loop.sts.replicas) + if surge then 1 else 0
    {
      hide Reached, Failed, Own, RescaleTarget, UpdateSteps;
      if s.loop.pc == Rescaling {
        ok, rest := RescaleAndSettle(c);
      } else {
        rest := UpdateSteps(s.loop.pc == Surging);
        UpdateTakesSteps(s.loop.pc == Surging);
        ok := UpdatePod(c);
      }
    }

    method RescaleAndSettle(c: Settings) returns (ok: bool, ghost rest: seq<Action>)
      requires Reached(c) && s.loop.pc == Rescaling && !s.loop.up
      modifies this`s, this`left, this`run, this`actions
      ensures Reached(c)
      ensures if !ok then Failed(c)
              else && s.loop.pc == FinalHook && s.loop.sent == 0 && Steps() == old(Steps()) + rest
                   && rest != [] && rest[0] == Refresh && s.loop.sr == old(s.loop.sr)
                   && s.loop.sts.replicas == RescaleTarget(c, s.loop.cur, old(s.loop.sts.replicas))
    {
      hide Reached, Failed, Own, RescaleTarget, Stable, Select;
      ok, rest := RescaleStatefulSet(c);
      if ok {
        ok := AllStable(c);
        rest := rest + [Action.AllStable];
      }
    }

    method GetForPods(c: Settings) returns (ok: bool)
      requires Reached(c) && s.loop.pc == Reported
      modifies this`s, this`left, this`run, this`actions
      ensures Reached(c)
      ensures if !ok then Failed(c)
              else && Steps() == old(Steps()) + [Action.Operate]
                   && var desired, n := Desired(c, s.eds), old(s.loop.sts.replicas);
                      s.loop == if desired.Some? && n < desired.value
                                then old(s.loop).(pc := Rescaling, sr := s.eds, up := true)
                                else old(s.loop).(pc := Selecting, sr := s.eds)
    {
      hide Trace, Next, MayFail, Own, Spent, Desired;
      ok := Call(c);
      if ok {
        var desired := Desired(c, s.eds);
        var t := if desired.Some? && s.loop.sts.replicas < desired.value
                 then s.(loop := s.loop.(pc := Rescaling, sr := s.eds, up := true))
                 else s.(loop := s.loop.(pc := Selecting, sr := s.eds));
        ByOperate(c, s, Action.Operate, t);
        Take(c, Action.Operate, t);
      }
    }

    /** Where getPodToUpdate takes the loop. */
    function Chosen(c: Settings, l: Loop, pod: Option<Pod>): Loop {
      if pod.None? then l.(pc := Rescaling, up := false)
      else l.(pod := pod, pc := if Desired(c, l.sr) == Some(l.sts.replicas) then Surging else AwaitSurge)
    }

    /** The Pod of highest priority among those the cache shows that need an update, if there is one. */
    method GetPodToUpdate(c: Settings) returns (ok: bool, ghost a: Action)
      requires Reached(c) && s.loop.pc == Selecting && Faithful(cycle.selecting)
      modifies this`s, this`left, this`run, this`actions
      ensures Reached(c)
      ensures if !ok then Failed(c)
              else && a.SelectPod? && a.view == cycle.selecting(s.pods) && Steps() == old(Steps()) + [a]
                   && a.x == cycle.x.(desired := Desired(c, s.loop.sr), replicas := old(s.loop.sts.replicas))
                   && Prioritized(a.x, a.view, a.prioritized)
                   && s.loop == Chosen(c, old(s.loop), PodToUpdate(a.prioritized))
                   && (PodToUpdate(a.prioritized).Some? ==> PodToUpdate(a.prioritized).value.ordinal.Some?)
    {
      hide Trace, Next, Own, Spent, Desired, Prioritized, CacheShowsMarks;
      a := Start;
      ok := Call(c);
      if !ok {
        return;
      }
      var view := cycle.selecting(s.pods);
      var seen := cycle.x.(desired := Desired(c, s.loop.sr), replicas := s.loop.sts.replicas);
      var prioritized := PrioritizePodsForUpdate(seen, view);
      if prioritized.None? {
        ok := Fails(c);
        return;
      }
      hide MayFail;
      var t := s.(loop := Chosen(c, s.loop, PodToUpdate(prioritized.value)));
      ChosenIsNumbered(seen, view, prioritized.value);
      ByUpdate(c, s, SelectPod(seen, view, prioritized.value), t);
      Take(c, SelectPod(seen, view, prioritized.value), t);
      a := SelectPod(seen, view, prioritized.value);
    }

    /** Scale out by one if needed, wait, mark, drain and delete. */
    method UpdatePod(c: Settings) returns (ok: bool)
      requires Reached(c) && s.loop.pc in {Surging, AwaitSurge}
      requires s.loop.pod.Some? && s.loop.pod.value.ordinal.Some?
      modifies this`s, this`left, this`run, this`actions
      ensures Reached(c)
      ensures var surge := old(s.loop.pc) == Surging;
              if !ok then Failed(c)
              else && Steps() == old(Steps()) + UpdateSteps(surge) && old(s.loop.pod.value.ordinal.value) !in s.pods
                   && s.loop == old(s.loop).(pc := FinalHook, sent := 0, sts := s.loop.sts)
                   && s.loop.sts.replicas == old(s.loop.sts.replicas) + if surge then 1 else 0
    {
      hide Trace, Next, MayFail, Own, Spent;
      if s.loop.pc == Surging {
        ok := SurgeByOne(c);
        if !ok {
          return;
        }
      }
      ok := AnnotatePod(c);
      if !ok {
        return;
      }
      ok := DrainAndDelete(c);
    }

    method SurgeByOne(c: Settings) returns (ok: bool)
      requires Reached(c) && s.loop.pc == Surging
      modifies this`s, this`left, this`run, this`actions
      ensures Reached(c)
      ensures if !ok then Failed(c)
              else && Steps() == old(Steps()) + [Surge] && s.sts.Some? && s.sts.value.replicas == s.loop.sts.replicas
                   && s.loop == old(s.loop).(pc := AwaitSurge, sts := s.loop.sts)
                   && s.loop.sts.replicas == old(s.loop.sts.replicas) + 1
    {
      hide Trace, Next, Own, Spent;
      ok := Call(c);
      if ok && StsMoved(s) {
        ok := Fails(c);
      } else if ok {
        hide MayFail;
        var more := s.loop.sts.replicas + 1;
        var t := s.(sts := Some(Sts(s.sts.value.version + 1, more)),
                    loop := s.loop.(pc := AwaitSurge, sts := s.loop.sts.(replicas := more)));
        ByUpdate(c, s, Surge, t);
        Take(c, Surge, t);
      }
    }

    method AwaitSurgeStable(c: Settings) returns (ok: bool)
      requires Reached(c) && s.loop.pc == AwaitSurge
      modifies this`s, this`left, this`run, this`actions
      ensures Reached(c)
      ensures if !ok then Failed(c)
              else s.loop == old(s.loop).(pc := Marking) && Stable(s) && Steps() == old(Steps()) + [SurgeStable]
    {
      hide Trace, Next, MayFail, Own, Spent;
      ok := WaitForStableStatefulSet(c);
      if ok {
        var t := s.(loop := s.loop.(pc := Marking), losses := 0);
        StableAlike(s, t);
        hide Stable;
        ByUpdate(c, s, SurgeStable, t);
        Take(c, SurgeStable, t);
      }
    }

    /** The mark goes to whatever Pod has the name when the call is made, unless the cache showed it. */
    method AnnotatePod(c: Settings) returns (ok: bool)
      requires Reached(c) && s.loop.pc == AwaitSurge && s.loop.pod.Some? && s.loop.pod.value.ordinal.Some?
      modifies this`s, this`left, this`run, this`actions
      ensures Reached(c)
      ensures var pod := old(s.loop.pod.value);
              if !ok then Failed(c)
              else && s.loop == old(s.loop).(pc := DrainingPod) && Steps() == old(Steps()) + [SurgeStable, Mark]
                   && (!pod.draining ==> pod.ordinal.value in s.pods && s.pods[pod.ordinal.value].draining)
    {
      hide Trace, Next, Own, Spent;
      ok := AwaitSurgeStable(c);
      if !ok {
        return;
      }
      ok := Call(c);
      if !ok {
        return;
      }
      var o := s.loop.pod.value.ordinal.value;
      if s.loop.pod.value.draining {
        hide MayFail;
        var t := s.(loop := s.loop.(pc := DrainingPod));
        ByUpdate(c, s, Mark, t);
        Take(c, Mark, t);
      } else if o !in s.pods {
        ok := Fails(c);
      } else {
        hide MayFail;
        var t := s.(loop := s.loop.(pc := DrainingPod), pods := s.pods[o := s.pods[o].(draining := true)]);
        ByUpdate(c, s, Mark, t);
        Take(c, Mark, t);
      }
    }

    method DrainAndDelete(c: Settings) returns (ok: bool)
      requires Reached(c) && s.loop.pc == DrainingPod && s.loop.pod.Some? && s.loop.pod.value.ordinal.Some?
      modifies this`s, this`left, this`run, this`actions
      ensures Reached(c)
      ensures if !ok then Failed(c)
              else && s.loop == old(s.loop).(pc := FinalHook, sent := 0) && Steps() == old(Steps()) + [DrainPod, Delete]
                   && s.loop.pod.value.ordinal.value !in s.pods
    {
      hide Trace, Next, Own, Spent;
      ok := Call(c);
      if !ok {
        return;
      }
      var t := s.(loop := s.loop.(pc := Deleting));
      ByUpdate(c, s, DrainPod, t);
      Take(c, DrainPod, t);
      ok := Call(c);
      if !ok {
        return;
      }
      var o := s.loop.pod.value.ordinal.value;
      if o !in s.pods {
        ok := Fails(c);
        return;
      }
      hide MayFail;
      t := s.(loop := s.loop.(pc := FinalHook, sent := 0), pods := s.pods - {o});
      ByUpdate(c, s, Delete, t);
      Take(c, Delete, t);
    }

    method AllStable(c: Settings) returns (ok: bool)
      requires Reached(c) && s.loop.pc == AwaitStable
      modifies this`s, this`left, this`run, this`actions
      ensures Reached(c)
      ensures if !ok then Failed(c)
              else s.loop == old(s.loop).(pc := FinalHook, sent := 0) && Stable(s)
                   && Steps() == old(Steps()) + [Action.AllStable]
    {
      hide Trace, Next, MayFail, Own, Spent;
      ok := WaitForStableStatefulSet(c);
      if ok {
        var t := s.(loop := s.loop.(pc := FinalHook, sent := 0));
        StableAlike(s, t);
        hide Stable;
        ByRescale(c, s, Action.AllStable, t);
        Take(c, Action.AllStable, t);
      }
    }

    // ----- rescaleStatefulSet -----

    /** Up to the desired count at once, or down by one after the index replicas and the draining. */
    method RescaleStatefulSet(c: Settings) returns (ok: bool, ghost rest: seq<Action>)
      requires Reached(c) && s.loop.pc == Rescaling
      modifies this`s, this`left, this`run, this`actions
      ensures Reached(c)
      ensures if !ok then Failed(c)
              else && Steps() == old(Steps()) + rest && rest != [] && rest[0] == Refresh
                   && RescaleDone(old(s.loop), s.loop)
                   && s.loop.sts.replicas == RescaleTarget(c, s.loop.cur, old(s.loop.sts.replicas))
                   && (|rest| > 1 ==> Stable(s) && s.sts.Some? && s.sts.value.replicas == s.loop.sts.replicas
                                      && (!s.loop.aborted ==> s.loop.drained == Select(s.loop.slice, NotPending)))
    {
      hide Reached, Failed, Own, Desired, Stable, Select, CarriedOut;
      rest := [];
      ok := GetDesiredReplicas(c);
      if !ok {
        return;
      }
      rest := [Refresh];
      if s.loop.pc in {FinalHook, AwaitStable} {
        return;
      }
      ghost var more := [];
      if s.loop.pc == PreHook {
        ok, more := ApplyScalingOperation(c);
        if !ok {
          return;
        }
      }
      ghost var last;
      ok, last := ListDrainResize(c);
      rest := [Refresh] + more + last;
    }

    /** From the copy of the EDS read now: done, on to the listing with a target, or to the hook first. */
    method GetDesiredReplicas(c: Settings) returns (ok: bool)
      requires Reached(c) && s.loop.pc == Rescaling
      modifies this`s, this`left, this`run, this`actions
      ensures Reached(c)
      ensures if !ok then Failed(c)
              else && Steps() == old(Steps()) + [Refresh] && s.loop.cur == s.eds
                   && s.loop.sts == old(s.loop.sts) && s.loop.sent == 0
                   && s.loop.drained == s.loop.skipped == [] && !s.loop.aborted
                   && s.loop.sr == old(s.loop.sr) && s.loop.pod == old(s.loop.pod) && s.loop.up == old(s.loop.up)
                   && var desired, n := Desired(c, s.eds), s.loop.sts.replicas;
                      if desired.None? || desired.value == n then RescaleDone(old(s.loop), s.loop)
                      else if desired.value > n then s.loop.pc == Listing && s.loop.target == desired.value
                      else if n == 0 then s.loop.pc == Listing && s.loop.target == 0
                      else s.loop.pc == PreHook
    {
      hide Trace, Next, MayFail, Own, Spent, Desired;
      ok := Call(c);
      if ok {
        var l, desired := BeginRescale(s), Desired(c, s.eds);
        var n := l.sts.replicas;
        var t := s.(loop := if desired.None? || desired.value == n then AfterRescale(l)
                            else if desired.value > n then l.(pc := Listing, target := desired.value)
                            else if n == 0 then l.(pc := Listing, target := 0)
                            else l.(pc := PreHook));
        ByRescale(c, s, Refresh, t);
        Take(c, Refresh, t);
      }
    }

    /** Lists the Pods, drains the slice and sets the size. */
    method ListDrainResize(c: Settings) returns (ok: bool, ghost rest: seq<Action>)
      requires Reached(c) && s.loop.pc == Listing && s.loop.drained == s.loop.skipped == [] && !s.loop.aborted
      modifies this`s, this`left, this`run, this`actions
      ensures Reached(c)
      ensures if !ok then Failed(c)
              else && Steps() == old(Steps()) + rest && rest != [] && RescaleDone(old(s.loop), s.loop)
                   && s.loop.sts.replicas == old(s.loop.target) && s.loop.cur == old(s.loop.cur)
                   && Stable(s) && s.sts.Some? && s.sts.value.replicas == s.loop.sts.replicas
                   && (!s.loop.aborted ==> s.loop.drained == Select(s.loop.slice, NotPending))
    {
      hide Reached, Failed, Own, Desired, Stable, Select, IsSortOf;
      rest := [];
      ghost var listed, drains;
      ok, listed := ListStatefulSetPods(c);
      if !ok {
        return;
      }
      ok, drains := DrainPodsForScaleDown(c);
      if !ok {
        return;
      }
      ok := UpdateStatefulSetReplicas(c);
      rest := [listed] + drains + [Resize, ResizeStable];
    }

    /** The slice to drain is what the sorted Pods hold from the target on. */
    method ListStatefulSetPods(c: Settings) returns (ok: bool, ghost a: Action)
      requires Reached(c) && s.loop.pc == Listing
      modifies this`s, this`left, this`run, this`actions
      ensures Reached(c)
      ensures if !ok then Failed(c)
              else && a.ListPods? && a.view == cycle.draining(s.pods) && IsSortOf(a.sorted, a.view, ByOrdinal())
                   && Steps() == old(Steps()) + [a]
                   && var slice := if 0 <= old(s.loop.target) < |a.sorted| then a.sorted[old(s.loop.target)..] else [];
                      s.loop == old(s.loop).(pc := ScaleDraining, slice := slice, todo := slice)
    {
      hide Trace, Next, Own, Spent, IsSortOf;
      a := Start;
      ok := Call(c);
      if !ok {
        return;
      }
      var view := cycle.draining(s.pods);
      var sorted := SortStatefulSetPods(view);
      if sorted.None? {
        ok := Fails(c);
        return;
      }
      hide MayFail;
      var slice := if 0 <= s.loop.target < |sorted.value| then sorted.value[s.loop.target..] else [];
      var t := s.(loop := s.loop.(pc := ScaleDraining, slice := slice, todo := slice));
      hide AllNumbered;
      ByDrain(c, s, ListPods(view, sorted.value), t);
      Take(c, ListPods(view, sorted.value), t);
      a := ListPods(view, sorted.value);
    }

    /**
      Drains the slice Pod by Pod. It returns nil with every Pod of the slice drained or skipped as
      Pending; or, given up, if and only if the settings it read last had changed: the desired count
      had risen or was no longer set. The caller sets the size all the same.
    */
    method DrainPodsForScaleDown(c: Settings) returns (ok: bool, ghost rest: seq<Action>)
      requires Reached(c) && s.loop.pc == ScaleDraining
      requires s.loop.todo == s.loop.slice && s.loop.drained == s.loop.skipped == [] && !s.loop.aborted
      modifies this`s, this`left, this`run, this`actions
      ensures Reached(c)
      ensures if !ok then Failed(c)
              else && Steps() == old(Steps()) + rest
                   && s.loop == old(s.loop).(todo := [], drained := s.loop.drained, skipped := s.loop.skipped,
                                             aborted := s.loop.aborted)
                   && DealtInOrder(s.loop)
                   && (s.loop.aborted <==> rest != [] && rest[|rest| - 1] == AbortDrain)
                   && if s.loop.aborted then CountRose(Desired(c, s.loop.cur), Desired(c, s.eds))
                      else s.loop.drained == Select(s.loop.slice, NotPending)
                           && s.loop.skipped == Select(s.loop.slice, StillPending)
    {
      hide Reached, Failed, Own, DealtInOrder, CountRose, Desired, Select;
      rest := [];
      NothingDealt(s.loop);
      while s.loop.todo != []
        invariant Reached(c) && Steps() == old(Steps()) + rest
        invariant s.loop == old(s.loop).(todo := s.loop.todo, drained := s.loop.drained, skipped := s.loop.skipped)
        invariant DealtInOrder(s.loop) && (rest != [] ==> rest[|rest| - 1] != AbortDrain)
        decreases |s.loop.todo|
      {
        ghost var before := s.loop;
        ok := ReadSettings(c);
        if !ok {
          return;
        }
        if s.loop.aborted {
          rest := rest + [AbortDrain];
          GivenUpInOrder(before, s.loop);
          return;
        }
        ghost var last;
        ok, last := DrainOrSkip(c);
        if !ok {
          return;
        }
        rest := rest + [CheckSlice, last];
        NextInOrder(before, s.loop);
      }
      AllInOrder(s.loop);
      ok := true;
    }

    /** Opts out of the draining when the desired count rose or is no longer set. */
    method ReadSettings(c: Settings) returns (ok: bool)
      requires Reached(c) && s.loop.pc == ScaleDraining && s.loop.todo != [] && !s.loop.aborted
      modifies this`s, this`left, this`run, this`actions
      ensures Reached(c)
      ensures if !ok then Failed(c)
              else if CountRose(Desired(c, s.loop.cur), Desired(c, s.eds)) then
                s.loop == old(s.loop).(todo := [], aborted := true) && Steps() == old(Steps()) + [AbortDrain]
              else
                s.loop == old(s.loop).(pc := SliceChecked) && Steps() == old(Steps()) + [CheckSlice]
    {
      hide Trace, Next, MayFail, Own, Spent;
      ok := Call(c);
      if ok {
        if DrainAborts(c, s.loop.cur, s.eds) {
          hide Desired;
          var t := s.(loop := s.loop.(todo := [], aborted := true));
          ByDrain(c, s, AbortDrain, t);
          Take(c, AbortDrain, t);
        } else {
          hide Desired;
          var t := s.(loop := s.loop.(pc := SliceChecked));
          ByDrain(c, s, CheckSlice, t);
          Take(c, CheckSlice, t);
        }
      }
    }

    /** A Pending Pod needs no draining; any other is drained once the StatefulSet is stable. */
    method DrainOrSkip(c: Settings) returns (ok: bool, ghost last: Action)
      requires Reached(c) && s.loop.pc == SliceChecked && s.loop.todo != []
      modifies this`s, this`left, this`run, this`actions
      ensures Reached(c)
      ensures var pod := old(s.loop.todo[0]);
              if !ok then Failed(c)
              else && last == (if pod.pending then SkipPending else DrainNext) && Steps() == old(Steps()) + [last]
                   && s.loop == old(s.loop).(pc := ScaleDraining, todo := old(s.loop.todo[1..]),
                        drained := old(s.loop.drained) + (if pod.pending then [] else [pod]),
                        skipped := old(s.loop.skipped) + (if pod.pending then [pod] else []))
    {
      hide Trace, Next, MayFail, Own, Spent;
      var pod := s.loop.todo[0];
      last := SkipPending;
      ok := true;
      if pod.pending {
        var t := s.(loop := s.loop.(pc := ScaleDraining, todo := s.loop.todo[1..], skipped := s.loop.skipped + [pod]));
        ByDrain(c, s, SkipPending, t);
        Take(c, SkipPending, t);
        return;
      }
      ok := WaitForStableStatefulSet(c);
      if ok {
        last := DrainNext;
        var t := s.(loop := s.loop.(pc := ScaleDraining, todo := s.loop.todo[1..], drained := s.loop.drained + [pod]));
        hide Stable;
        ByDrain(c, s, DrainNext, t);
        Take(c, DrainNext, t);
      }
    }

    method UpdateStatefulSetReplicas(c: Settings) returns (ok: bool)
      requires Reached(c) && s.loop.pc == ScaleDraining && s.loop.todo == []
      modifies this`s, this`left, this`run, this`actions
      ensures Reached(c)
      ensures if !ok then Failed(c)
              else && Steps() == old(Steps()) + [Resize, ResizeStable] && Stable(s)
                   && s.sts.Some? && s.sts.value.replicas == s.loop.sts.replicas == old(s.loop.target)
                   && s.loop == AfterRescale(old(s.loop).(sts := s.loop.sts))
    {
      hide Trace, Next, Own, Spent, Stable;
      ok := Call(c);
      if !ok {
        return;
      }
      if StsMoved(s) {
        ok := Fails(c);
        return;
      }
      hide MayFail;
      var t := s.(sts := Some(Sts(s.sts.value.version + 1, s.loop.target)),
                  loop := s.loop.(pc := AwaitResize, sts := s.loop.sts.(replicas := s.loop.target)));
      ByRescale(c, s, Resize, t);
      Take(c, Resize, t);
      ok := ResizeSettles(c);
    }

    method ResizeSettles(c: Settings) returns (ok: bool)
      requires Reached(c) && s.loop.pc == AwaitResize
      modifies this`s, this`left, this`run, this`actions
      ensures Reached(c) && SameSize(old(s), s)
      ensures if !ok then Failed(c)
              else Steps() == old(Steps()) + [ResizeStable] && Stable(s) && s.loop == AfterRescale(old(s.loop))
    {
      hide Trace, Next, MayFail, Own, Spent;
      ok := WaitForStableStatefulSet(c);
      if ok {
        var t := s.(loop := AfterRescale(s.loop));
        StableAlike(s, t);
        hide Stable;
        ByRescale(c, s, ResizeStable, t);
        Take(c, ResizeStable, t);
      }
    }

    // ----- the hooks -----

    /** The final hook and the cleanup of the exclude list, which ends the cycle. */
    method OnStableReplicasHook(c: Settings) returns (ok: bool, ghost rest: seq<Action>)
      requires Reached(c) && s.loop.pc == FinalHook && s.loop.sent == 0
      modifies this`s, this`left, this`run, this`actions
      ensures Reached(c)
      ensures if !ok then Failed(c)
              else && Steps() == old(Steps()) + rest && rest != []
                   && s.loop == old(s.loop).(pc := Idle, sent := s.loop.sent)
                   && CarriedOut(old(HookOperation(s.loop)), s)
    {
      hide Trace, Next, Own, Spent;
      ok, rest := ApplyScalingOperation(c);
      if ok && !cycle.cleanup {
        ok := Fails(c);
      }
      hide MayFail, CarriedOut;
    }

    /** Sends the indices of the operation in the hook's copy of the EDS and removes the annotation. */
    method ApplyScalingOperation(c: Settings) returns (ok: bool, ghost rest: seq<Action>)
      requires Reached(c) && InHook(s.loop) && s.loop.sent == 0
      modifies this`s, this`left, this`run, this`actions
      ensures Reached(c)
      ensures if !ok then Failed(c)
              else && Steps() == old(Steps()) + rest && rest != []
                   && s.loop == AfterHook(old(s.loop)).(sent := s.loop.sent)
                   && CarriedOut(old(HookOperation(s.loop)), s)
                   && (old(HookOperation(s.loop)).Some? ==> s.eds.pending.None?)
    {
      hide Trace, Next, MayFail, Own, Spent;
      rest := [];
      var operation := HookOperation(s.loop);
      if operation.None? {
        var t := s.(loop := AfterHook(s.loop));
        ByHook(c, s, SkipHook, t);
        Take(c, SkipHook, t);
        return true, [SkipHook];
      }
      var updated;
      ok, updated, rest := UpdateIndexSettings(c);
      if !ok {
        return;
      }
      ok := RemoveScalingOperationAnnotation(c);
      rest := rest + [RemoveAnnotation];
      hide Pairs;
    }

    /**
      One PUT per index, to the first that does not succeed. An index that is not found ends the
      loop with nil, and the indices after it are not sent.
    */
    method UpdateIndexSettings(c: Settings) returns (ok: bool, updated: nat, ghost rest: seq<Action>)
      requires Reached(c) && InHook(s.loop) && s.loop.sent == 0 && HookOperation(s.loop).Some?
      modifies this`s, this`left, this`run, this`actions
      ensures Reached(c)
      ensures var p := old(HookOperation(s.loop).value);
              var n, e := |p.operation.indexReplicas|, ElasticFor(cycle, old(s.loop));
              && Ends(n, e, ok, updated) && s.accepted == old(s.accepted) + Pairs(p.id, updated)
              && s.missing == (if ok && updated < n then old(s.missing) + {p.id} else old(s.missing))
              && if !ok then Failed(c)
                 else s.loop == old(s.loop).(sent := n) && left == old(left) && Steps() == old(Steps()) + rest
    {
      hide Reached, Failed, Own, Pairs;
      var n, e := |HookOperation(s.loop).value.operation.indexReplicas|, ElasticFor(cycle, s.loop);
      updated, rest, ok := 0, [], true;
      NoPairs(HookOperation(s.loop).value.id);
      if n == 0 {
        return;
      }
      if !e.green {
        ok := PutFails(c);
        return;
      }
      ok, updated, rest := SendIndices(c, n, e);
    }

    method SendIndices(c: Settings, n: nat, e: Elastic) returns (ok: bool, updated: nat, ghost rest: seq<Action>)
      requires Reached(c) && InHook(s.loop) && s.loop.sent == 0 && HookOperation(s.loop).Some?
      requires n == |HookOperation(s.loop).value.operation.indexReplicas| && e == ElasticFor(cycle, s.loop) && e.green
      modifies this`s, this`left, this`run, this`actions
      ensures Reached(c) && Ends(n, e, ok, updated)
      ensures var id := old(HookOperation(s.loop).value.id);
              && s.accepted == old(s.accepted) + Pairs(id, updated)
              && s.missing == (if ok && updated < n then old(s.missing) + {id} else old(s.missing))
      ensures if !ok then Failed(c)
              else s.loop == old(s.loop).(sent := n) && left == old(left) && Steps() == old(Steps()) + rest
    {
      hide Reached, Failed, Own, Pairs;
      ghost var id := HookOperation(s.loop).value.id;
      updated, rest, ok := 0, [], true;
      NoPairs(id);
      while updated < n
        invariant updated <= n && (forall k :: 0 <= k < updated ==> e.puts(k) == Updated)
        invariant Reached(c) && Steps() == old(Steps()) + rest && left == old(left)
        invariant s.loop == old(s.loop).(sent := updated)
        invariant s.accepted == old(s.accepted) + Pairs(id, updated) && s.missing == old(s.missing)
      {
        Others(c);
        if e.puts(updated) == Refused {
          ok := PutFails(c);
          return;
        }
        if e.puts(updated) == NotFound {
          SendingCutShort(c);
          rest := rest + [IndexMissing];
          return;
        }
        OneIndexSent(c);
        OnePairMore(id, updated);
        rest, updated := rest + [SendIndex], updated + 1;
      }
    }

    method PutFails(c: Settings) returns (ok: bool)
      requires Reached(c) && InHook(s.loop) && HookOperation(s.loop).Some?
      requires var n, e := |HookOperation(s.loop).value.operation.indexReplicas|, ElasticFor(cycle, s.loop);
               s.loop.sent < n && (!e.green || e.puts(s.loop.sent) == Refused)
      modifies this`s, this`left, this`run, this`actions
      ensures Reached(c) && !ok && Failed(c) && SameHistory(old(s), s)
    {
      hide Trace, Next, Own, Spent;
      ok := Fails(c);
    }

    method OneIndexSent(c: Settings)
      requires Reached(c) && InHook(s.loop) && HookOperation(s.loop).Some?
      requires s.loop.sent < |HookOperation(s.loop).value.operation.indexReplicas|
      modifies this`s, this`left, this`run, this`actions
      ensures Reached(c) && Steps() == old(Steps()) + [SendIndex] && left == old(left)
      ensures s.loop == old(s.loop.(sent := s.loop.sent + 1)) && s.missing == old(s.missing)
      ensures s.accepted == old(s.accepted) + {(old(HookOperation(s.loop).value.id), old(s.loop.sent))}
    {
      hide Trace, Next, Own, Spent;
      var id := HookOperation(s.loop).value.id;
      var t := s.(loop := s.loop.(sent := s.loop.sent + 1), newest := Max(s.newest, id),
                  accepted := s.accepted + {(id, s.loop.sent)});
      ByHook(c, s, SendIndex, t);
      Take(c, SendIndex, t);
    }

    method SendingCutShort(c: Settings)
      requires Reached(c) && InHook(s.loop) && HookOperation(s.loop).Some?
      requires s.loop.sent < |HookOperation(s.loop).value.operation.indexReplicas|
      modifies this`s, this`left, this`run, this`actions
      ensures Reached(c) && Steps() == old(Steps()) + [IndexMissing] && left == old(left)
      ensures s.loop == old(s.loop.(sent := |HookOperation(s.loop).value.operation.indexReplicas|))
      ensures s.accepted == old(s.accepted) && s.missing == old(s.missing) + {old(HookOperation(s.loop).value.id)}
    {
      hide Trace, Next, Own, Spent;
      var p := HookOperation(s.loop).value;
      var t := s.(loop := s.loop.(sent := |p.operation.indexReplicas|), newest := Max(s.newest, p.id),
                  missing := s.missing + {p.id});
      ByHook(c, s, IndexMissing, t);
      Take(c, IndexMissing, t);
    }

    /** Removes the annotation, if the hook's copy of the EDS is still the stored one. */
    method RemoveScalingOperationAnnotation(c: Settings) returns (ok: bool)
      requires Reached(c) && InHook(s.loop) && HookOperation(s.loop).Some?
      requires s.loop.sent == |HookOperation(s.loop).value.operation.indexReplicas|
      modifies this`s, this`left, this`run, this`actions
      ensures Reached(c) && SameHistory(old(s), s)
      ensures if !ok then Failed(c)
              else && Steps() == old(Steps()) + [RemoveAnnotation] && s.loop == AfterHook(old(s.loop))
                   && s.eds.pending.None? && s.eds.version == HookVersion(old(s.loop)) + 1
    {
      hide Trace, Next, Own, Spent;
      ok := Call(c);
      if ok {
        if s.eds.version != HookVersion(s.loop) {
          ok := Fails(c);
        } else {
          hide MayFail;
          var t := s.(loop := AfterHook(s.loop), eds := s.eds.(version := s.eds.version + 1, pending := None));
          ByHook(c, s, RemoveAnnotation, t);
          Take(c, RemoveAnnotation, t);
        }
      }
    }
  }

  /** The three ways of the draining loop keep the slice dealt with in order. */
  lemma NextInOrder(l: Loop, m: Loop)
    requires DealtInOrder(l) && l.todo != [] && !l.aborted
    requires m.slice == l.slice && m.todo == l.todo[1..] && !m.aborted
    requires m.drained == l.drained + if l.todo[0].pending then [] else [l.todo[0]]
    requires m.skipped == l.skipped + if l.todo[0].pending then [l.todo[0]] else []
    ensures DealtInOrder(m)
  {
    OneMoreDealt(l);
    hide Select;
  }

  lemma GivenUpInOrder(l: Loop, m: Loop)
    requires DealtInOrder(l) && l.todo != [] && !l.aborted && m == l.(todo := [], aborted := true)
    ensures DealtInOrder(m)
  {
    hide Select;
  }

  lemma AllInOrder(l: Loop)
    requires DealtInOrder(l) && l.todo == [] && !l.aborted
    ensures l.drained == Select(l.slice, NotPending) && l.skipped == Select(l.slice, StillPending)
  {
    assert l.slice[..|l.slice|] == l.slice;
  }

  lemma StableAlike(s: State, t: State)
    requires Stable(s) && t.sts == s.sts && t.pods == s.pods
    ensures Stable(t)
  {
  }

  lemma ChosenIsNumbered(x: Context, view: seq<Pod>, prioritized: seq<Pod>)
    requires Prioritized(x, view, prioritized) && AllNumbered(view)
    ensures PodToUpdate(prioritized).Some? ==> PodToUpdate(prioritized).value.ordinal.Some?
  {
    ChosenPod(x, view, prioritized);
    hide Prioritized, NeedsUpdate, Before, Priority;
  }
}
