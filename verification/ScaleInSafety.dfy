/**
  What a rescale has drained when it sets the size: every Pod of its slice, exactly unless the
  settings were found changed on the way.
*/
module ScaleInSafety {
  import opened Base
  import opened Sequences
  import opened Autoscaler
  import opened Pods
  import opened ControlLoop
  import HandoffSafety

  predicate Draining(pc: Pc) {
    pc in {ScaleDraining, SliceChecked}
  }

  // ----- the Pods of the slice are dealt with in order -----

  predicate StillPending(pod: Pod) {
    pod.pending
  }

  function Dealt(l: Loop): nat {
    |l.drained| + |l.skipped|
  }

  /**
    Drained and skipped are the two kinds among the first Pods of the slice; todo is the rest or, given
    up, nothing.
  */
  ghost predicate DealtInOrder(l: Loop) {
    && Dealt(l) <= |l.slice|
    && l.drained == Select(l.slice[..Dealt(l)], NotPending)
    && l.skipped == Select(l.slice[..Dealt(l)], StillPending)
    && (if l.aborted then l.todo == [] && Dealt(l) < |l.slice| else l.todo == l.slice[Dealt(l)..])
  }

  ghost predicate SliceInv(s: State) {
    && (Draining(s.loop.pc) ==> DealtInOrder(s.loop))
    && (s.loop.pc == SliceChecked ==> !s.loop.aborted)
    && (s.loop.pc in {PreHook, Listing} ==> s.loop.drained == [] && s.loop.skipped == [] && !s.loop.aborted)
  }

  lemma OneMoreDealt(l: Loop)
    requires DealtInOrder(l) && !l.aborted && l.todo != []
    ensures Dealt(l) < |l.slice| && l.todo[1..] == l.slice[Dealt(l) + 1..]
    ensures var d := Dealt(l);
            && Select(l.slice[..d + 1], NotPending) == l.drained + (if l.todo[0].pending then [] else [l.todo[0]])
            && Select(l.slice[..d + 1], StillPending) == l.skipped + if l.todo[0].pending then [l.todo[0]] else []
  {
    var d := Dealt(l);
    assert l.todo[0] == l.slice[d] && l.slice[..d + 1] == l.slice[..d] + [l.todo[0]];
    SelectAppend(l.slice[..d], l.todo[0], NotPending);
    SelectAppend(l.slice[..d], l.todo[0], StillPending);
  }

  lemma NothingDealt(l: Loop)
    requires l.drained == [] && l.skipped == [] && !l.aborted && l.todo == l.slice
    ensures DealtInOrder(l)
  {
  }

  lemma SliceDrains(c: Settings, s: State, a: Action, t: State)
    requires DrainAction(c, s, a, t) && SliceInv(s)
    ensures SliceInv(t)
  {
    hide Stable, FlatMap, Desired, IsSortOf, AllNumbered, DrainAborts;
    match a
    case ListPods(_, _) => NothingDealt(t.loop);
    case SkipPending => OneMoreDealt(s.loop);
    case DrainNext => OneMoreDealt(s.loop);
    case _ =>
  }

  lemma SliceRescale(c: Settings, s: State, a: Action, t: State)
    requires RescaleAction(c, s, a, t)
    ensures SliceInv(t)
  {
    hide Stable, Desired, DealtInOrder;
  }

  lemma SliceHook(s: State, a: Action, t: State)
    requires HookAction(s, a, t) && SliceInv(s)
    ensures SliceInv(t)
  {
    hide DealtInOrder;
  }

  lemma SliceElsewhere(c: Settings, s: State, a: Action, t: State)
    requires CrdMinima(c) && SliceInv(s)
    requires OperateAction(c, s, a, t) || UpdateAction(c, s, a, t) || ScalerAction(c, s, a, t) || EnvAction(s, a, t)
    ensures SliceInv(t)
  {
    hide OperateAction, UpdateAction, ScalerAction, EnvAction, DealtInOrder;
    if OperateAction(c, s, a, t) {
      OperateFrames(c, s, a, t);
    } else if UpdateAction(c, s, a, t) {
      UpdateFrames(c, s, a, t);
    } else if ScalerAction(c, s, a, t) {
      ScalerFrames(c, s, a, t);
    } else {
      EnvFrames(s, a, t);
    }
  }

  lemma SliceStep(c: Settings, s: State, a: Action, t: State)
    requires CrdMinima(c) && Next(c, s, a, t) && SliceInv(s)
    ensures SliceInv(t)
  {
    hide OperateAction, UpdateAction, RescaleAction, DrainAction, HookAction, ScalerAction, EnvAction, SliceInv;
    if RescaleAction(c, s, a, t) {
      SliceRescale(c, s, a, t);
    } else if DrainAction(c, s, a, t) {
      SliceDrains(c, s, a, t);
    } else if HookAction(s, a, t) {
      SliceHook(s, a, t);
    } else {
      SliceElsewhere(c, s, a, t);
    }
  }

  lemma {:induction false} SliceAlways(c: Settings, run: seq<State>, actions: seq<Action>, i: nat)
    requires CrdMinima(c) && Run(c, run, actions) && i < |run|
    ensures SliceInv(run[i])
  {
    if i > 0 {
      SliceAlways(c, run, actions, i - 1);
      hide Next, SliceInv, Init;
      SliceStep(c, run[i - 1], actions[i - 1], run[i]);
    }
  }

  // ----- the draining loop of one rescale -----

  /** The draining loop that is at i was already at k. */
  ghost predicate DrainingSince(run: seq<State>, k: nat, i: nat) {
    k <= i < |run| && forall m :: k <= m <= i ==> Draining(run[m].loop.pc)
  }

  /** The loop reads the EDS again before the next Pod. */
  predicate ReadsSettings(a: Action) {
    a.AbortDrain? || a.CheckSlice?
  }

  /** The settings read at k had changed: the desired count had risen or was no longer set. */
  ghost predicate FoundChanged(c: Settings, run: seq<State>, actions: seq<Action>, k: nat)
    requires k < |run| == |actions| + 1
  {
    && k < |actions| && ReadsSettings(actions[k])
    && var before, now := Desired(c, run[k].loop.cur), Desired(c, run[k].eds);
       now.None? || (before.Some? && now.value > before.value)
  }

  /** Some Pod of a list is neither Pending nor drained. */
  ghost predicate Undrained(pods: seq<Pod>, drained: seq<Pod>) {
    exists pod :: pod in pods && !pod.pending && pod !in drained
  }

  /** How a step within the draining loop, or into it, changes what it has given up. */
  lemma DrainingStep(c: Settings, s: State, a: Action, t: State)
    requires CrdMinima(c) && Next(c, s, a, t) && Draining(t.loop.pc) && SliceInv(s)
    ensures Draining(s.loop.pc) || (a.ListPods? && !t.loop.aborted)
    ensures Draining(s.loop.pc) ==> t.loop.slice == s.loop.slice && t.loop.cur == s.loop.cur
                                    && t.loop.target == s.loop.target
    ensures Draining(s.loop.pc) && !s.loop.aborted ==>
              (t.loop.aborted <==> ReadsSettings(a) && DrainAborts(c, s.loop.cur, s.eds))
    ensures Draining(s.loop.pc) && t.loop.aborted && !s.loop.aborted ==> t.loop.drained == s.loop.drained
    ensures Draining(s.loop.pc) && s.loop.aborted ==> t.loop == s.loop && !ReadsSettings(a)
  {
    hide OperateAction, UpdateAction, RescaleAction, DrainAction, HookAction, ScalerAction, EnvAction, DrainAborts;
    if DrainAction(c, s, a, t) {
      DrainingMoves(c, s, a, t);
    } else if OperateAction(c, s, a, t) {
      OperateFrames(c, s, a, t);
    } else if UpdateAction(c, s, a, t) {
      UpdateFrames(c, s, a, t);
    } else if RescaleAction(c, s, a, t) {
      RescaleLeaves(c, s, a, t);
    } else if HookAction(s, a, t) {
      HookLeaves(s, a, t);
    } else if ScalerAction(c, s, a, t) {
      ScalerFrames(c, s, a, t);
    } else {
      EnvFrames(s, a, t);
    }
  }

  lemma RescaleLeaves(c: Settings, s: State, a: Action, t: State)
    requires RescaleAction(c, s, a, t)
    ensures !Draining(t.loop.pc)
  {
    hide Stable, Desired;
  }

  lemma HookLeaves(s: State, a: Action, t: State)
    requires HookAction(s, a, t)
    ensures !Draining(t.loop.pc)
  {
  }

  lemma DrainingMoves(c: Settings, s: State, a: Action, t: State)
    requires DrainAction(c, s, a, t) && SliceInv(s)
    ensures Draining(s.loop.pc) || (a.ListPods? && !t.loop.aborted)
    ensures Draining(s.loop.pc) ==> t.loop.slice == s.loop.slice && t.loop.cur == s.loop.cur
                                    && t.loop.target == s.loop.target
    ensures Draining(s.loop.pc) ==> !s.loop.aborted
    ensures Draining(s.loop.pc) ==> (t.loop.aborted <==> ReadsSettings(a) && DrainAborts(c, s.loop.cur, s.eds))
    ensures Draining(s.loop.pc) && t.loop.aborted ==> t.loop.drained == s.loop.drained
  {
    hide Stable, Desired, IsSortOf, AllNumbered, Select, DrainAborts;
  }

  /** What every step of a run does as to the draining loop. */
  ghost predicate Link(c: Settings, s: State, a: Action, t: State) {
    && SliceInv(s)
    && (Draining(t.loop.pc) ==>
          && (Draining(s.loop.pc) || (a.ListPods? && !t.loop.aborted && ListStep(s, a.view, a.sorted, t)))
          && (Draining(s.loop.pc) ==>
                && t.loop.slice == s.loop.slice && t.loop.target == s.loop.target
                && (!s.loop.aborted ==> (t.loop.aborted <==> ReadsSettings(a) && DrainAborts(c, s.loop.cur, s.eds)))
                && (t.loop.aborted && !s.loop.aborted ==> t.loop.drained == s.loop.drained)
                && (s.loop.aborted ==> t.loop == s.loop && !ReadsSettings(a))))
  }

  ghost predicate Linked(c: Settings, run: seq<State>, actions: seq<Action>) {
    && |run| == |actions| + 1 && !Draining(run[0].loop.pc)
    && forall i :: 0 <= i < |actions| ==> Link(c, run[i], actions[i], run[i + 1])
  }

  lemma RunIsLinked(c: Settings, run: seq<State>, actions: seq<Action>)
    requires CrdMinima(c) && Run(c, run, actions)
    ensures Linked(c, run, actions)
  {
    RunBegins(c, run, actions);
    forall i | 0 <= i < |actions| ensures Link(c, run[i], actions[i], run[i + 1]) {
      RunStep(c, run, actions, i);
      SliceAlways(c, run, actions, i);
      StepIsLink(c, run[i], actions[i], run[i + 1]);
    }
    hide Run, Next, Init, Link;
  }

  lemma StepIsLink(c: Settings, s: State, a: Action, t: State)
    requires CrdMinima(c) && Next(c, s, a, t) && SliceInv(s)
    ensures Link(c, s, a, t)
  {
    hide Next, SliceInv, DrainAborts, ListStep;
    if Draining(t.loop.pc) {
      DrainingStep(c, s, a, t);
      if !Draining(s.loop.pc) {
        ListingIsAStep(c, s, a, t);
      }
    }
  }

  lemma {:induction false} GivenUpBy(c: Settings, run: seq<State>, actions: seq<Action>, i: nat) returns (k: nat)
    requires Linked(c, run, actions) && i < |run|
    requires Draining(run[i].loop.pc) && run[i].loop.aborted
    ensures k < i && DrainingSince(run, k, i) && FoundChanged(c, run, actions, k)
  {
    hide SliceInv, ListStep, DrainAborts;
    assert i > 0;
    assert Link(c, run[i - 1], actions[i - 1], run[i]);
    if run[i - 1].loop.aborted {
      k := GivenUpBy(c, run, actions, i - 1);
      DrainsOn(run, k, i);
    } else {
      k := i - 1;
      ChangedNow(c, run, actions, k);
    }
    hide Linked, Link;
  }

  lemma ChangedNow(c: Settings, run: seq<State>, actions: seq<Action>, k: nat)
    requires k + 1 < |run| == |actions| + 1 && Draining(run[k].loop.pc) && Draining(run[k + 1].loop.pc)
    requires ReadsSettings(actions[k]) && DrainAborts(c, run[k].loop.cur, run[k].eds)
    ensures DrainingSince(run, k, k + 1) && FoundChanged(c, run, actions, k)
  {
    hide Desired;
  }

  /** Once the settings were found changed nothing more is drained. */
  lemma {:induction false} AfterChange(c: Settings, run: seq<State>, actions: seq<Action>, k: nat, i: nat)
    requires Linked(c, run, actions) && k < i && DrainingSince(run, k, i)
    requires FoundChanged(c, run, actions, k)
    ensures SliceInv(run[k]) && !run[k].loop.aborted && run[i].loop.aborted
    ensures run[i].loop.slice == run[k].loop.slice && run[i].loop.drained == run[k].loop.drained
    decreases i
  {
    hide SliceInv, ListStep, Desired;
    assert Link(c, run[i - 1], actions[i - 1], run[i]);
    LastTwo(run, k, i);
    if k < i - 1 {
      AfterChange(c, run, actions, k, i - 1);
    }
    hide Linked, DrainingSince;
  }

  lemma LastTwo(run: seq<State>, k: nat, i: nat)
    requires k < i && DrainingSince(run, k, i)
    ensures Draining(run[i - 1].loop.pc) && Draining(run[i].loop.pc) && DrainingSince(run, k, i - 1)
  {
  }

  /** As long as the loop has not given up, the Pods still to do decide whether one of the slice is undrained. */
  lemma RestDecides(l: Loop)
    requires DealtInOrder(l) && !l.aborted
    ensures Undrained(l.slice, l.drained) <==> Undrained(l.todo, l.drained)
  {
    var done := l.slice[..Dealt(l)];
    assert l.slice == done + l.todo;
    forall pod ensures pod in l.drained <==> pod in done && NotPending(pod) {
      SelectMembers(done, NotPending, pod);
    }
    hide Select;
  }

  /** The loop is at the end of its slice, or it has given up. */
  lemma AtResize(c: Settings, run: seq<State>, actions: seq<Action>, i: nat)
    requires CrdMinima(c) && Run(c, run, actions) && i < |actions| && actions[i].Resize?
    ensures run[i].loop.pc == ScaleDraining && run[i].loop.todo == [] && DealtInOrder(run[i].loop)
  {
    SliceAlways(c, run, actions, i);
    assert Next(c, run[i], actions[i], run[i + 1]);
    hide Run, DealtInOrder;
    GroupOfResize(c, run[i], actions[i], run[i + 1]);
  }

  lemma GroupOfResize(c: Settings, s: State, a: Action, t: State)
    requires CrdMinima(c) && Next(c, s, a, t) && a.Resize?
    ensures ResizeStep(s, t)
  {
    HandoffSafety.GroupOfAction(c, s, a, t);
  }

  /**
    Main result. In every run a rescale sets the size with every Pod of its slice Pending or drained
    if and only if no reading of the settings on the way found them changed while an undrained Pod
    that was not Pending was still to do. It has been through the whole slice if and only if no
    reading found them changed at all; then what is not drained was skipped as Pending.
  */
  lemma ShrinkFollowsDraining(c: Settings, run: seq<State>, actions: seq<Action>, i: nat)
    requires CrdMinima(c) && Run(c, run, actions) && i < |actions| && actions[i].Resize?
    ensures !Undrained(run[i].loop.slice, run[i].loop.drained)
       <==> forall k :: 0 <= k < i && DrainingSince(run, k, i) && FoundChanged(c, run, actions, k) ==>
              !Undrained(run[k].loop.todo, run[k].loop.drained)
    ensures Dealt(run[i].loop) == |run[i].loop.slice|
       <==> forall k :: 0 <= k < i && DrainingSince(run, k, i) ==> !FoundChanged(c, run, actions, k)
  {
    AtResize(c, run, actions, i);
    RestAtEnd(run[i].loop);
    RunIsLinked(c, run, actions);
    hide DealtInOrder, Next, Init, Undrained, Linked;
    forall k: nat | k < i && DrainingSince(run, k, i) && FoundChanged(c, run, actions, k)
      ensures run[i].loop.aborted
      ensures Undrained(run[k].loop.todo, run[k].loop.drained) <==> Undrained(run[i].loop.slice, run[i].loop.drained)
    {
      AfterChange(c, run, actions, k, i);
      RestDecides(run[k].loop);
    }
    if run[i].loop.aborted {
      var k := GivenUpBy(c, run, actions, i);
      assert FoundChanged(c, run, actions, k);
    }
    hide Run, FoundChanged, DrainingSince;
  }

  lemma RestAtEnd(l: Loop)
    requires DealtInOrder(l) && l.todo == []
    ensures !l.aborted ==> !Undrained(l.slice, l.drained)
    ensures !l.aborted <==> Dealt(l) == |l.slice|
  {
    if !l.aborted {
      RestDecides(l);
    }
    hide Select;
  }

  // ----- which readings end the draining -----

  /** From the refresh to the resize the copy of the EDS has a desired count. */
  ghost predicate CountInv(c: Settings, s: State) {
    s.loop.pc in {PreHook, Listing, ScaleDraining, SliceChecked} ==> Desired(c, s.loop.cur).Some?
  }

  lemma CountRescale(c: Settings, s: State, a: Action, t: State)
    requires RescaleAction(c, s, a, t) && CountInv(c, s)
    ensures CountInv(c, t)
  {
    hide Stable, Desired;
  }

  lemma CountHook(c: Settings, s: State, a: Action, t: State)
    requires HookAction(s, a, t) && CountInv(c, s)
    ensures CountInv(c, t)
  {
    hide Desired;
  }

  lemma CountStep(c: Settings, s: State, a: Action, t: State)
    requires CrdMinima(c) && Next(c, s, a, t) && CountInv(c, s)
    ensures CountInv(c, t)
  {
    hide OperateAction, UpdateAction, RescaleAction, DrainAction, HookAction, ScalerAction, EnvAction, Desired;
    if RescaleAction(c, s, a, t) {
      CountRescale(c, s, a, t);
    } else if DrainAction(c, s, a, t) {
      DrainFrames(c, s, a, t);
    } else if HookAction(s, a, t) {
      CountHook(c, s, a, t);
    } else if OperateAction(c, s, a, t) {
      OperateFrames(c, s, a, t);
    } else if UpdateAction(c, s, a, t) {
      UpdateFrames(c, s, a, t);
    } else if ScalerAction(c, s, a, t) {
      ScalerFrames(c, s, a, t);
    } else {
      EnvFrames(s, a, t);
    }
  }

  lemma {:induction false} CountAlways(c: Settings, run: seq<State>, actions: seq<Action>, i: nat)
    requires CrdMinima(c) && Run(c, run, actions) && i < |run|
    ensures CountInv(c, run[i])
  {
    RunBegins(c, run, actions);
    hide Next, Init, Run, Desired;
    if i > 0 {
      hide CountInv;
      CountAlways(c, run, actions, i - 1);
      RunStep(c, run, actions, i - 1);
      CountStep(c, run[i - 1], actions[i - 1], run[i]);
    }
  }

  /** The desired count now is set and not above the one the rescale started from. */
  ghost predicate StillWanted(c: Settings, s: State) {
    && Desired(c, s.eds).Some? && Desired(c, s.loop.cur).Some?
    && Desired(c, s.eds).value <= Desired(c, s.loop.cur).value
  }

  /** With Pods to do, the draining can go on exactly while the count is wanted, and otherwise only give up. */
  lemma GoesOnExactly(c: Settings, run: seq<State>, actions: seq<Action>, i: nat)
    requires CrdMinima(c) && Run(c, run, actions) && i < |run|
    requires run[i].loop.pc == ScaleDraining && run[i].loop.todo != []
    ensures (exists t :: DrainAction(c, run[i], CheckSlice, t)) <==> StillWanted(c, run[i])
    ensures (exists t :: DrainAction(c, run[i], AbortDrain, t)) <==> !StillWanted(c, run[i])
  {
    CountAlways(c, run, actions, i);
    var s := run[i];
    hide Run, Desired;
    if StillWanted(c, s) {
      assert DrainAction(c, s, CheckSlice, s.(loop := s.loop.(pc := SliceChecked)));
    } else {
      assert DrainAction(c, s, AbortDrain, s.(loop := s.loop.(todo := [], aborted := true)));
    }
  }

  /**
    Main result. In every run a rescale that sets the size has been through its whole slice if and only
    if every reading on the way found a desired count, not above the one it started from; a count
    that fell or stayed never ends the draining, one that rose or was unset does.
  */
  lemma WholeSliceExactly(c: Settings, run: seq<State>, actions: seq<Action>, i: nat)
    requires CrdMinima(c) && Run(c, run, actions) && i < |actions| && actions[i].Resize?
    ensures Dealt(run[i].loop) == |run[i].loop.slice|
       <==> forall k :: 0 <= k < i && DrainingSince(run, k, i) && ReadsSettings(actions[k]) ==>
              StillWanted(c, run[k])
  {
    ShrinkFollowsDraining(c, run, actions, i);
    forall k | 0 <= k < i && DrainingSince(run, k, i)
      ensures FoundChanged(c, run, actions, k) <==> ReadsSettings(actions[k]) && !StillWanted(c, run[k])
    {
      CountAlways(c, run, actions, k);
      hide Run, Desired;
    }
    hide Run, FoundChanged, StillWanted, DrainingSince;
  }

  // ----- the slice is what Kubernetes removes -----

  lemma SlicePositions(view: seq<Pod>, sorted: seq<Pod>, target: int, k: nat)
    requires ProperOrdinals(view) && IsSortOf(sorted, view, ByOrdinal()) && 0 <= target && target + k < |sorted|
    ensures Number(sorted[target + k]) >= target + k
    ensures (forall pod :: pod in view ==> Number(pod) < |view|) ==> Number(sorted[target + k]) == target + k
  {
    PermutationMembers(sorted, view);
    SortedProper(view, sorted);
    OrdinalAtLeastPosition(sorted, target + k);
    if forall pod :: pod in view ==> Number(pod) < |view| {
      FullOrdinalsAtPosition(sorted, target + k);
    }
  }

  lemma SortedProper(view: seq<Pod>, sorted: seq<Pod>)
    requires ProperOrdinals(view) && multiset(sorted) == multiset(view)
    ensures ProperOrdinals(sorted)
  {
    PermutationMembers(sorted, view);
    DistinctPermutation(view, sorted);
    forall i | 0 <= i < |sorted| ensures sorted[i].ordinal.Some? && sorted[i].ordinal.value >= 0 {
      assert sorted[i] in view;
    }
    forall i, j | 0 <= i < j < |sorted| ensures sorted[i].ordinal != sorted[j].ordinal {
      assert sorted[i] in view && sorted[j] in view;
      var k :| 0 <= k < |view| && view[k] == sorted[i];
      var l :| 0 <= l < |view| && view[l] == sorted[j];
      assert sorted[i] != sorted[j];
    }
  }

  /** The listing that gave the present slice. */
  lemma {:induction false} ListingOf(c: Settings, run: seq<State>, actions: seq<Action>, i: nat) returns (j: nat)
    requires Linked(c, run, actions) && i < |run| && Draining(run[i].loop.pc)
    ensures j < i && DrainingSince(run, j + 1, i) && actions[j].ListPods?
    ensures ListStep(run[j], actions[j].view, actions[j].sorted, run[j + 1])
    ensures run[i].loop.slice == run[j + 1].loop.slice && run[i].loop.target == run[j + 1].loop.target
  {
    hide SliceInv, ListStep, DrainAborts;
    assert i > 0;
    assert Link(c, run[i - 1], actions[i - 1], run[i]);
    if Draining(run[i - 1].loop.pc) {
      j := ListingOf(c, run, actions, i - 1);
      DrainsOn(run, j + 1, i);
    } else {
      j := i - 1;
      DrainsNow(run, i);
    }
    hide Linked, Link;
  }

  lemma DrainsNow(run: seq<State>, i: nat)
    requires i < |run| && Draining(run[i].loop.pc)
    ensures DrainingSince(run, i, i)
  {
  }

  lemma DrainsOn(run: seq<State>, k: nat, i: nat)
    requires 0 < i < |run| && DrainingSince(run, k, i - 1) && Draining(run[i].loop.pc)
    ensures DrainingSince(run, k, i)
  {
  }

  lemma ListingIsAStep(c: Settings, s: State, a: Action, t: State)
    requires CrdMinima(c) && Next(c, s, a, t) && a.ListPods?
    ensures ListStep(s, a.view, a.sorted, t)
  {
    hide Desired, Stable, IsSortOf, AllNumbered, CalculateOperation, Decidable, ListStep;
  }

  /**
    Main result. In every run, when the Pods listed for a rescale have distinct ordinals, no Pod of
    its slice is one Kubernetes keeps at the target size; and when they have the ordinals from zero
    on without a gap, the slice is precisely the Pods Kubernetes removes, in order.
  */
  lemma SliceIsWhatGoes(c: Settings, run: seq<State>, actions: seq<Action>, i: nat) returns (j: nat)
    requires CrdMinima(c) && Run(c, run, actions) && i < |run| && Draining(run[i].loop.pc)
    ensures j < i && DrainingSince(run, j + 1, i) && actions[j].ListPods?
    ensures var view, l := actions[j].view, run[i].loop;
            ProperOrdinals(view) && 0 <= l.target ==>
              && (forall k :: 0 <= k < |l.slice| ==> Number(l.slice[k]) >= l.target + k)
              && ((forall pod :: pod in view ==> Number(pod) < |view|) ==>
                    && (forall k :: 0 <= k < |l.slice| ==> Number(l.slice[k]) == l.target + k)
                    && |l.slice| == Max(0, |view| - l.target))
  {
    RunIsLinked(c, run, actions);
    j := ListingOf(c, run, actions, i);
    var view, sorted, l := actions[j].view, actions[j].sorted, run[i].loop;
    hide Run, IsSortOf, ProperOrdinals, DrainingSince, Linked;
    if ProperOrdinals(view) && 0 <= l.target {
      assert |sorted| == |view| by {
        SortKeepsLength(view, sorted);
      }
      forall k | 0 <= k < |l.slice|
        ensures Number(l.slice[k]) >= l.target + k
        ensures (forall pod :: pod in view ==> Number(pod) < |view|) ==> Number(l.slice[k]) == l.target + k
      {
        SlicePositions(view, sorted, l.target, k);
      }
    }
  }

  lemma SortKeepsLength(view: seq<Pod>, sorted: seq<Pod>)
    requires IsSortOf(sorted, view, ByOrdinal())
    ensures |sorted| == |view|
  {
    PermutationMembers(sorted, view);
  }
}
