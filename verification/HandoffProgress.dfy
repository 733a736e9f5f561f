/**
  Every operation handed over is carried out: while the EDS is not written by others and the loop
  keeps taking steps, a pending operation is sent and its annotation removed.
*/
module HandoffProgress {
  import opened Base
  import opened Autoscaler
  import opened ControlLoop
  import opened Metrics
  import opened Pods
  import opened Sequences
  import opened HandoffSafety
  import opened RolloutTermination

  // ----- steps that leave the EDS to the two loops -----

  /** Nobody else writes the EDS, and no call fails but a removal that cannot succeed. */
  ghost predicate Undisturbed(s: State, a: Action) {
    match a
    case Fail => RemovalConflicts(s)
    case EnvTouchEds => false
    case EnvEdit(_) => false
    case _ => true
  }

  // ----- the way to go to the end of a cycle -----

  function CyclePlace(pc: Pc): nat {
    match pc
    case Idle => 18
    case Started => 17
    case Preparing => 16
    case Reconciled => 15
    case Reported => 14
    case Selecting => 13
    case Surging => 12
    case AwaitSurge => 11
    case Marking => 10
    case DrainingPod => 9
    case Deleting => 8
    case Rescaling => 7
    case PreHook => 6
    case Listing => 5
    case ScaleDraining => 4
    case SliceChecked => 4
    case AwaitResize => 3
    case AwaitStable => 2
    case FinalHook => 1
  }

  predicate Onward(before: Loop, after: Loop) {
    || CyclePlace(after.pc) < CyclePlace(before.pc)
    || (CyclePlace(after.pc) == CyclePlace(before.pc) && Left(after) < Left(before))
  }

  /** A step of the loop gets on in its cycle, or it is the one that ends the cycle. */
  predicate Proceeds(before: Loop, after: Loop) {
    Onward(before, after) || (before.pc == FinalHook && after.pc == Idle)
  }

  lemma OperateProceeds(c: Settings, s: State, a: Action, t: State)
    requires OperateAction(c, s, a, t) && Undisturbed(s, a)
    ensures Proceeds(s.loop, t.loop)
  {
    hide Desired;
  }

  lemma UpdateProceeds(c: Settings, s: State, a: Action, t: State)
    requires UpdateAction(c, s, a, t)
    ensures Proceeds(s.loop, t.loop)
  {
    hide Prioritized, CacheShowsMarks, AllNumbered, Stable, Desired;
  }

  lemma RescaleProceeds(c: Settings, s: State, a: Action, t: State)
    requires RescaleAction(c, s, a, t)
    ensures Proceeds(s.loop, t.loop)
  {
    hide Stable, Desired;
  }

  lemma DrainProceeds(c: Settings, s: State, a: Action, t: State)
    requires DrainAction(c, s, a, t)
    ensures Proceeds(s.loop, t.loop)
  {
    hide Stable, Desired, IsSortOf, AllNumbered, DrainAborts;
  }

  lemma HookProceeds(s: State, a: Action, t: State)
    requires HookAction(s, a, t)
    ensures Proceeds(s.loop, t.loop)
  {
  }

  // ----- while an operation is pending -----

  /** The copy the final hook will act on is the stored EDS, or is yet to be read. */
  ghost predicate Fresh(s: State) {
    HoldsSr(s.loop.pc) ==> s.loop.sr == s.eds
  }

  /** The way to go until the annotation is removed, the copy of the cycle under way being stale or not. */
  datatype Way = Way(stale: nat, place: nat, left: nat)

  ghost function WayOf(s: State): Way {
    Way(if Fresh(s) then 0 else 1, CyclePlace(s.loop.pc), Left(s.loop))
  }

  predicate Shorter(a: Way, b: Way) {
    || a.stale < b.stale
    || (a.stale == b.stale && (a.place < b.place || (a.place == b.place && a.left < b.left)))
  }

  predicate NoLonger(a: Way, b: Way) {
    a == b || Shorter(a, b)
  }

  /** The autoscaler cannot write the EDS while an operation is pending. */
  lemma ScalerWaits(c: Settings, s: State, a: Action, t: State)
    requires CrdMinima(c) && ScalerAction(c, s, a, t) && HandoffInv(s) && s.eds.pending.Some?
    ensures t.eds == s.eds
  {
    hide CalculateOperation, Hint, Desired, Decidable, HookCopiesInv, ProgressInv, DecrementInv, Done;
  }

  lemma OthersWait(c: Settings, s: State, a: Action, t: State)
    requires CrdMinima(c) && (ScalerAction(c, s, a, t) || EnvAction(s, a, t))
    requires HandoffInv(s) && s.eds.pending.Some? && Undisturbed(s, a)
    ensures t.eds == s.eds && t.loop == s.loop && !LoopMoves(a)
  {
    if ScalerAction(c, s, a, t) {
      ScalerFrames(c, s, a, t);
      ScalerWaits(c, s, a, t);
    } else {
      EnvFrames(s, a, t);
    }
    hide ScalerAction, HandoffInv, ReadyCount, NoNewMarks;
  }

  /** A fresh copy stays fresh, and the final hook that acts on it ends with the removal. */
  lemma FreshStays(c: Settings, s: State, a: Action, t: State)
    requires OperateAction(c, s, a, t) || UpdateAction(c, s, a, t) || RescaleAction(c, s, a, t)
             || DrainAction(c, s, a, t)
    requires Undisturbed(s, a) && Fresh(s)
    ensures Fresh(t) && (s.loop.pc == FinalHook ==> t.loop.pc != Idle)
  {
    hide UpdateAction, RescaleAction, DrainAction;
    if OperateAction(c, s, a, t) {
      FreshOperate(c, s, a, t);
    } else if UpdateAction(c, s, a, t) {
      UpdateFrames(c, s, a, t);
    } else if RescaleAction(c, s, a, t) {
      FreshRescale(c, s, a, t);
    } else {
      DrainFrames(c, s, a, t);
    }
  }

  lemma FreshOperate(c: Settings, s: State, a: Action, t: State)
    requires OperateAction(c, s, a, t) && Undisturbed(s, a) && Fresh(s)
    ensures Fresh(t) && (s.loop.pc == FinalHook ==> t.loop.pc != Idle)
  {
    hide Desired;
  }

  lemma FreshRescale(c: Settings, s: State, a: Action, t: State)
    requires RescaleAction(c, s, a, t) && Fresh(s)
    ensures Fresh(t) && s.loop.pc != FinalHook
  {
    hide Desired, Stable;
  }

  lemma FreshHook(s: State, a: Action, t: State)
    requires HookAction(s, a, t) && Fresh(s) && StoredInv(s)
    requires s.eds.pending.Some? && t.eds.pending == s.eds.pending
    ensures Fresh(t) && (s.loop.pc == FinalHook ==> t.loop.pc != Idle)
  {
    hide Done;
  }

  lemma LoopStepProceeds(c: Settings, s: State, a: Action, t: State)
    requires OperateAction(c, s, a, t) || UpdateAction(c, s, a, t) || RescaleAction(c, s, a, t)
             || DrainAction(c, s, a, t) || HookAction(s, a, t)
    requires Undisturbed(s, a)
    ensures Proceeds(s.loop, t.loop)
  {
    hide OperateAction, UpdateAction, RescaleAction, DrainAction, HookAction, Undisturbed, Proceeds;
    if OperateAction(c, s, a, t) {
      OperateProceeds(c, s, a, t);
    } else if UpdateAction(c, s, a, t) {
      UpdateProceeds(c, s, a, t);
    } else if RescaleAction(c, s, a, t) {
      RescaleProceeds(c, s, a, t);
    } else if DrainAction(c, s, a, t) {
      DrainProceeds(c, s, a, t);
    } else {
      HookProceeds(s, a, t);
    }
  }

  lemma PendingStep(c: Settings, s: State, a: Action, t: State)
    requires CrdMinima(c) && Next(c, s, a, t) && HandoffInv(s) && Undisturbed(s, a)
    requires s.eds.pending.Some? && t.eds.pending == s.eds.pending
    ensures NoLonger(WayOf(t), WayOf(s))
    ensures LoopMoves(a) ==> Shorter(WayOf(t), WayOf(s))
  {
    hide OperateAction, UpdateAction, RescaleAction, DrainAction, HookAction, ScalerAction, EnvAction, HandoffInv,
         Undisturbed, LoopMoves, Left;
    if ScalerAction(c, s, a, t) || EnvAction(s, a, t) {
      OthersWait(c, s, a, t);
    } else {
      LoopStepProceeds(c, s, a, t);
      if Fresh(s) {
        if HookAction(s, a, t) {
          assert StoredInv(s) by {
            StoredPart(s);
          }
          FreshHook(s, a, t);
        } else {
          FreshStays(c, s, a, t);
        }
      }
      hide StoredInv;
    }
  }

  lemma StoredPart(s: State)
    requires HandoffInv(s)
    ensures StoredInv(s)
  {
    hide CopiesInv, StoredInv, HookCopiesInv, ProgressInv, DecrementInv;
  }

  // ----- every undisturbed run -----

  ghost predicate EndlessRun(c: Settings, run: nat -> State, actions: nat -> Action)
    requires CrdMinima(c)
  {
    forall i: nat :: Next(c, run(i), actions(i), run(i + 1))
  }

  ghost predicate UndisturbedRun(c: Settings, run: nat -> State, actions: nat -> Action)
    requires CrdMinima(c)
  {
    EndlessRun(c, run, actions) && UndisturbedFrom(run, actions, 0)
  }

  /** Only finitely many calls fail and only finitely many times somebody else writes the EDS. */
  ghost predicate UndisturbedFrom(run: nat -> State, actions: nat -> Action, n: nat) {
    forall i: nat :: n <= i ==> Undisturbed(run(i), actions(i))
  }

  lemma {:induction false} InvariantHolds(c: Settings, run: nat -> State, actions: nat -> Action, i: nat)
    requires CrdMinima(c) && EndlessRun(c, run, actions) && HandoffInv(run(0))
    ensures HandoffInv(run(i))
  {
    if i > 0 {
      InvariantHolds(c, run, actions, i - 1);
      hide Next, HandoffInv;
      assert Next(c, run(i - 1), actions(i - 1), run(i));
      HandoffStep(c, run(i - 1), actions(i - 1), run(i));
    }
  }

  /** The annotation is the one with this operation from i to j. */
  ghost predicate PendingUntil(run: nat -> State, id: nat, i: nat, j: nat) {
    forall k: nat :: i <= k <= j ==> IsPending(run(k).eds.pending, id)
  }

  /** The way never gets longer, and a step of the loop shortens it. */
  ghost predicate NotAway(run: nat -> State, actions: nat -> Action, id: nat, i: nat) {
    IsPending(run(i).eds.pending, id) && IsPending(run(i + 1).eds.pending, id) ==>
      && NoLonger(WayOf(run(i + 1)), WayOf(run(i)))
      && (LoopMoves(actions(i)) ==> Shorter(WayOf(run(i + 1)), WayOf(run(i))))
  }

  lemma NeverAway(c: Settings, run: nat -> State, actions: nat -> Action, id: nat)
    requires CrdMinima(c) && UndisturbedRun(c, run, actions) && HandoffInv(run(0))
    ensures forall i: nat :: NotAway(run, actions, id, i)
  {
    forall i: nat ensures NotAway(run, actions, id, i) {
      hide UndisturbedRun, HandoffInv, Next;
      if IsPending(run(i).eds.pending, id) && IsPending(run(i + 1).eds.pending, id) {
        OneStep(c, run, actions, id, i);
      }
    }
  }

  lemma {:induction false} WayStays(run: nat -> State, actions: nat -> Action, id: nat, i: nat, j: nat)
    requires forall k: nat :: NotAway(run, actions, id, k)
    requires i <= j && PendingUntil(run, id, i, j)
    ensures NoLonger(WayOf(run(j)), WayOf(run(i)))
    decreases j
  {
    hide WayOf, LoopMoves;
    if i < j {
      WayStays(run, actions, id, i, j - 1);
      assert NotAway(run, actions, id, j - 1);
      NoLongerTransitive(WayOf(run(j)), WayOf(run(j - 1)), WayOf(run(i)));
    }
  }

  lemma NoLongerTransitive(a: Way, b: Way, d: Way)
    requires NoLonger(a, b) && NoLonger(b, d)
    ensures NoLonger(a, d)
    ensures Shorter(a, b) ==> Shorter(a, d)
  {
  }

  lemma OneStep(c: Settings, run: nat -> State, actions: nat -> Action, id: nat, i: nat)
    requires CrdMinima(c) && UndisturbedRun(c, run, actions) && HandoffInv(run(0))
    requires IsPending(run(i).eds.pending, id) && IsPending(run(i + 1).eds.pending, id)
    ensures NoLonger(WayOf(run(i + 1)), WayOf(run(i)))
    ensures LoopMoves(actions(i)) ==> Shorter(WayOf(run(i + 1)), WayOf(run(i)))
  {
    InvariantHolds(c, run, actions, i);
    InvariantHolds(c, run, actions, i + 1);
    assert Next(c, run(i), actions(i), run(i + 1)) && Undisturbed(run(i), actions(i));
    SamePending(c, run(i), actions(i), run(i + 1), id);
    hide *;
    PendingStep(c, run(i), actions(i), run(i + 1));
  }

  /** The history tells what the operation of an annotation is. */
  lemma SamePending(c: Settings, s: State, a: Action, t: State, id: nat)
    requires CrdMinima(c) && Next(c, s, a, t) && HandoffInv(s) && HandoffInv(t)
    requires IsPending(s.eds.pending, id) && IsPending(t.eds.pending, id)
    ensures t.eds.pending == s.eds.pending
  {
    StoredPart(s);
    StoredPart(t);
    WrittenGrows(c, s, a, t);
    hide Next, HandoffInv, Done;
  }

  lemma WrittenGrows(c: Settings, s: State, a: Action, t: State)
    requires CrdMinima(c) && Next(c, s, a, t) && HandoffInv(s)
    ensures s.written <= t.written
  {
    if HookAction(s, a, t) {
      HookFrames(s, a, t);
    } else if ScalerAction(c, s, a, t) {
      PublishNeedsNothingPending(c, s, a, t);
    } else {
      QuietSteps(c, s, a, t);
    }
    hide Next, HookAction, ScalerAction, HandoffInv;
  }

  /** The next step of the loop either removes the annotation or shortens the way. */
  lemma NextMove(run: nat -> State, actions: nat -> Action, id: nat, i: nat) returns (j: nat)
    requires LoopGoesOn(actions) && forall k: nat :: NotAway(run, actions, id, k)
    requires IsPending(run(i).eds.pending, id)
    ensures i <= j
    ensures !IsPending(run(j).eds.pending, id) || Shorter(WayOf(run(j)), WayOf(run(i)))
  {
    hide WayOf, LoopMoves, Shorter, NoLonger;
    var m := NextLoopMove(actions, i);
    j := m + 1;
    var gone := FirstGone(run, id, i, j);
    if gone <= j {
      j := gone;
    } else {
      WayStays(run, actions, id, i, m);
      assert NotAway(run, actions, id, m);
      NoLongerTransitive(WayOf(run(j)), WayOf(run(m)), WayOf(run(i)));
    }
    hide LoopGoesOn;
  }

  lemma NextLoopMove(actions: nat -> Action, i: nat) returns (m: nat)
    requires LoopGoesOn(actions)
    ensures i <= m && LoopMoves(actions(m))
  {
    hide LoopMoves;
    assert MovesFrom(actions, i);
    m :| i <= m && LoopMoves(actions(m));
  }

  lemma {:induction false} FirstGone(run: nat -> State, id: nat, i: nat, j: nat) returns (k: nat)
    requires i <= j
    ensures i <= k
    ensures if k <= j then !IsPending(run(k).eds.pending, id) else PendingUntil(run, id, i, j)
    decreases j
  {
    if !IsPending(run(j).eds.pending, id) {
      k := j;
    } else if i == j {
      k := j + 1;
    } else {
      k := FirstGone(run, id, i, j - 1);
      if k == j {
        k := j + 1;
      }
    }
  }

  lemma {:induction false} WayEnds(run: nat -> State, actions: nat -> Action, id: nat, i: nat) returns (j: nat)
    requires LoopGoesOn(actions) && forall k: nat :: NotAway(run, actions, id, k)
    requires IsPending(run(i).eds.pending, id)
    ensures i <= j && !IsPending(run(j).eds.pending, id)
    decreases WayOf(run(i)).stale, WayOf(run(i)).place, WayOf(run(i)).left
  {
    hide WayOf, LoopGoesOn, NotAway;
    var m := NextMove(run, actions, id, i);
    if !IsPending(run(m).eds.pending, id) {
      j := m;
    } else {
      j := WayEnds(run, actions, id, m);
    }
  }

  /** The part of an endless run from n on. */
  function From<T>(f: nat -> T, n: nat): nat -> T {
    (i: nat) => f(n + i)
  }

  lemma LoopGoesOnFrom(actions: nat -> Action, n: nat)
    requires LoopGoesOn(actions)
    ensures LoopGoesOn(From(actions, n))
  {
    hide LoopMoves;
    forall i: nat ensures MovesFrom(From(actions, n), i) {
      assert MovesFrom(actions, n + i);
      var j: nat :| n + i <= j && LoopMoves(actions(j));
      assert LoopMoves(From(actions, n)(j - n));
    }
  }

  lemma UndisturbedAfter(c: Settings, run: nat -> State, actions: nat -> Action, n: nat)
    requires CrdMinima(c) && EndlessRun(c, run, actions) && UndisturbedFrom(run, actions, n)
    ensures UndisturbedRun(c, From(run, n), From(actions, n))
  {
    hide Next, Undisturbed;
    forall i: nat ensures Next(c, From(run, n)(i), From(actions, n)(i), From(run, n)(i + 1)) {
      assert Next(c, run(n + i), actions(n + i), run(n + i + 1));
    }
  }

  /** From where nothing disturbs any more a pending operation comes to its end. */
  lemma PendingEnds(c: Settings, run: nat -> State, actions: nat -> Action, n: nat, i: nat) returns (j: nat)
    requires CrdMinima(c) && EndlessRun(c, run, actions) && UndisturbedFrom(run, actions, n) && LoopGoesOn(actions)
    requires HandoffInv(run(0)) && n <= i && run(i).eds.pending.Some?
    ensures i <= j && !IsPending(run(j).eds.pending, run(i).eds.pending.value.id)
  {
    var id := run(i).eds.pending.value.id;
    hide HandoffInv, UndisturbedFrom, UndisturbedRun, LoopGoesOn, NotAway, EndlessRun;
    InvariantHolds(c, run, actions, n);
    LoopGoesOnFrom(actions, n);
    UndisturbedAfter(c, run, actions, n);
    NeverAway(c, From(run, n), From(actions, n), id);
    var m := WayEnds(From(run, n), From(actions, n), id, i - n);
    j := n + m;
  }

  /**
    Main result. In every run with finitely many disturbances, that is writes to the EDS by others and
    failing calls other than a removal that cannot succeed, in which the loop keeps taking steps, an
    operation that is pending at some point is no longer pending at a later one, and by then all its
    index replicas have been accepted, unless a deleted index cut the sending short.
  */
  lemma OperationIsCarriedOut(c: Settings, run: nat -> State, actions: nat -> Action, n: nat, i: nat)
    returns (j: nat)
    requires CrdMinima(c) && EndlessRun(c, run, actions) && UndisturbedFrom(run, actions, n) && LoopGoesOn(actions)
    requires HandoffInv(run(0)) && run(i).eds.pending.Some?
    ensures var id := run(i).eds.pending.value.id;
            && i <= j && !IsPending(run(j).eds.pending, id)
            && id < |run(j).written| && Done(run(j), id)
  {
    hide HandoffInv, UndisturbedFrom, LoopGoesOn, EndlessRun, Done;
    var id := run(i).eds.pending.value.id;
    j := Max(i, n);
    if IsPending(run(j).eds.pending, id) {
      j := PendingEnds(c, run, actions, n, j);
    }
    NotPendingIsDone(c, run, actions, i, j);
  }

  lemma NotPendingIsDone(c: Settings, run: nat -> State, actions: nat -> Action, i: nat, j: nat)
    requires CrdMinima(c) && EndlessRun(c, run, actions) && HandoffInv(run(0)) && i <= j
    requires run(i).eds.pending.Some? && !IsPending(run(j).eds.pending, run(i).eds.pending.value.id)
    ensures run(i).eds.pending.value.id < |run(j).written| && Done(run(j), run(i).eds.pending.value.id)
  {
    InvariantHolds(c, run, actions, i);
    InvariantHolds(c, run, actions, j);
    WrittenStays(c, run, actions, i, j);
    StoredPart(run(i));
    StoredPart(run(j));
    hide EndlessRun, HandoffInv, Done;
  }

  lemma {:induction false} WrittenStays(c: Settings, run: nat -> State, actions: nat -> Action, i: nat, j: nat)
    requires CrdMinima(c) && EndlessRun(c, run, actions) && HandoffInv(run(0)) && i <= j
    ensures run(i).written <= run(j).written
    decreases j
  {
    hide *;
    if i < j {
      WrittenStays(c, run, actions, i, j - 1);
      WrittenOnce(c, run, actions, j - 1);
      PrefixTransitive(run(i).written, run(j - 1).written, run(j).written);
    }
  }

  lemma PrefixTransitive<T>(a: seq<T>, b: seq<T>, d: seq<T>)
    requires a <= b <= d
    ensures a <= d
  {
  }

  lemma WrittenOnce(c: Settings, run: nat -> State, actions: nat -> Action, i: nat)
    requires CrdMinima(c) && EndlessRun(c, run, actions) && HandoffInv(run(0))
    ensures run(i).written <= run(i + 1).written
  {
    InvariantHolds(c, run, actions, i);
    hide Next, HandoffInv;
    assert Next(c, run(i), actions(i), run(i + 1));
    WrittenGrows(c, run(i), actions(i), run(i + 1));
  }
}
