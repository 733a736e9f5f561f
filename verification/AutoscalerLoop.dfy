/**
  scaleEDS and updateScalingOperation of operator/elasticsearch.go as they are written. How the
  calls turn out is a parameter; between any two calls others do what they like.
*/
module AutoscalerLoop {
  import opened Base
  import opened Rounding
  import opened Autoscaler
  import opened Metrics
  import opened ControlLoop
  import opened Traces

  /**
    What one round sees and how its calls turn out: the metrics, the indices in two visiting orders,
    the disk usages, and whether reading from Elasticsearch and the two updates of the EDS succeed.
  */
  datatype Round = Round(
    interval: int, metrics: Option<seq<Sample>>, first: seq<Index>, second: seq<Index>, disk: seq<real>,
    read: bool, status: bool, update: bool)

  ghost predicate Proper(r: Round) {
    r.interval > 0 && (r.first != [] ==> Managed(r.first) && multiset(r.first) == multiset(r.second))
  }

  /** What the round decides from a copy of the EDS at a time. */
  function Decision(c: Settings, r: Round, copy: Eds, now: int): Operation
    requires CrdMinima(c) && r.interval > 0 && Desired(c, copy).Some?
    requires r.first != [] ==> Decidable(c, r.first, r.second, Desired(c, copy).value)
  {
    var hint := Hint(c, r.interval, r.metrics, HintInput(copy.lastUp, copy.lastDown, now, now));
    CalculateOperation(c, r.first, r.second, hint, Desired(c, copy), r.disk)
  }

  /** A copy from which the round goes on to decide: valid settings, nothing pending, a count in the exact range. */
  predicate Decides(c: Settings, copy: Eds) {
    && Valid(c) && (copy.pending.Some? ==> copy.pending.value.operation.direction == NONE)
    && Desired(c, copy).Some? && 0 <= Desired(c, copy).value <= NUDGE_LIMIT
  }

  /** A round goes on exactly with enabled settings that fit, nothing pending and a count in the exact range. */
  lemma DecidesExactly(c: Settings, copy: Eds)
    requires CrdMinima(c)
    ensures Decides(c, copy)
       <==> && c.enabled && 1 <= c.minReplicas <= c.maxReplicas && c.minIndexReplicas <= c.maxIndexReplicas
            && c.minShardsPerNode <= c.maxShardsPerNode
            && c.minIndexReplicas < c.minReplicas && c.maxIndexReplicas < c.maxReplicas
            && (copy.pending.None? || copy.pending.value.operation.direction == NONE)
            && match copy.replicas
               case Some(n) => 0 <= n <= 100000
               case None => c.minReplicas <= 100000 && copy.statusReplicas <= 100000
  {
  }

  lemma DecidesIsDecidable(c: Settings, r: Round, copy: Eds)
    requires Proper(r) && Decides(c, copy)
    ensures r.first != [] ==> Decidable(c, r.first, r.second, Desired(c, copy).value)
  {
  }

  /** With valid settings there is always a count to start from, so scaleEDS never falls back to one of its own. */
  lemma FallbackIsDead(c: Settings, copy: Eds)
    requires Valid(c)
    ensures Desired(c, copy).Some?
    ensures copy.replicas.None? ==> Desired(c, copy).value == Max(c.minReplicas, copy.statusReplicas) >= 1
  {
  }

  predicate ScalerMoves(a: Action) {
    GroupOf(a) == OfScaler
  }

  function Deciding(r: Round): Action {
    DecideScaling(r.interval, r.metrics, r.first, r.second, r.disk)
  }

  /** The operation asks for another node count than there is. */
  predicate Changes(op: Operation, current: int) {
    op.nodeReplicas.Some? && op.nodeReplicas.value != current
  }

  function NodesAfter(op: Operation, current: int): int {
    if op.nodeReplicas.Some? then op.nodeReplicas.value else current
  }

  /** The version the annotation is written on: the status has been updated before if the count changes. */
  function UpdateVersion(copy: Eds, op: Operation, current: int): nat {
    copy.version + if Changes(op, current) then 1 else 0
  }

  /**
    From a decision at d, made on the copy, to the end of the round. The last step is the failed
    update of the status, the failed update of the annotation, or the round is through.
  */
  ghost predicate CarriedOn(c: Settings, r: Round, copy: Eds, run: seq<State>, actions: seq<Action>, d: nat,
                            rest: seq<Action>, ok: bool)
    requires Decides(c, copy) && Proper(r) && d + 1 < |run| == |actions| + 1
  {
    DecidesIsDecidable(c, r, copy);
    var op, current := Decision(c, r, copy, run[d].now), Desired(c, copy).value;
    var last, final := run[|run| - 2], run[|run| - 1];
    && actions[d] == Deciding(r)
    && if ok then
         && rest == [Deciding(r), RecordScaling, PublishScaling]
         && (Changes(op, current) ==> r.status)
         && if op.direction == NONE then final.written == run[0].written
            else && r.update && final.written == run[0].written + [op]
                 && final.eds.pending == Some(Pending(|run[0].written|, op))
                 && final.eds.replicas == Some(NodesAfter(op, current))
       else
         && final.written == run[0].written
         && ((rest == [Deciding(r), ScalerFail] && Changes(op, current)
              && (!r.status || last.eds.version != copy.version))
             || (rest == [Deciding(r), RecordScaling, ScalerFail] && op.direction != NONE
                 && (!r.update || last.eds.version != UpdateVersion(copy, op, current))))
  }

  /** A whole round, which lists the EDS at l and decides, if it does, at d. */
  ghost predicate RoundOutcome(c: Settings, r: Round, run: seq<State>, actions: seq<Action>, l: nat, d: nat, ok: bool)
    requires CrdMinima(c) && Proper(r)
  {
    && Trace(c, run, actions) && l < |actions| && actions[l] == ListEds
    && var copy, steps := run[l].eds, StepsOf(actions, ScalerMoves);
       if Decides(c, copy) && r.read then
         steps != [] && steps[0] == ListEds && d < |actions| && CarriedOn(c, r, copy, run, actions, d, steps[1..], ok)
       else
         && steps == [ListEds, ScalerFail] && run[|run| - 1].written == run[0].written
         && (ok <==> Validate(Some(c)).None? && !Decides(c, copy))
  }

  class World {
    var s: State
    /** Where the round began, and the run since then. */
    ghost var first: State
    ghost var run: seq<State>
    ghost var actions: seq<Action>

    ghost predicate Reached(c: Settings)
      reads this
    {
      CrdMinima(c) && |run| == |actions| + 1 && Trace(c, run, actions) && run[0] == first && run[|actions|] == s
    }

    /** The steps the autoscaler has taken in this round. */
    ghost function Steps(): seq<Action>
      reads this
    {
      StepsOf(actions, ScalerMoves)
    }

    constructor (c: Settings, init: State)
      requires CrdMinima(c)
      ensures Reached(c) && s == first == init && Steps() == []
    {
      s, first, run, actions := init, init, [init], [];
    }

    /**
      What others do between two calls of the autoscaler. The body does nothing; callers may rely on
      the contract only, which allows any steps but the autoscaler's own.
    */
    method Others(c: Settings)
      requires Reached(c)
      modifies this`s, this`run, this`actions
      ensures Reached(c) && Steps() == old(Steps()) && old(run) <= run && old(actions) <= actions
      ensures s.scaler == old(s.scaler) && s.written == old(s.written)
    {
    }

    /** The autoscaler takes one step. */
    method Take(c: Settings, a: Action, t: State)
      requires Reached(c) && ScalerAction(c, s, a, t) && ScalerMoves(a)
      modifies this`s, this`run, this`actions
      ensures Reached(c) && s == t && Steps() == old(Steps()) + [a]
      ensures run == old(run) + [t] && actions == old(actions) + [a]
    {
      hide Trace, ScalerAction, Next, StepsOf;
      ByScaler(c, s, a, t);
      TraceGoesOn(c, run, actions, a, t);
      OneStepMore(actions, ScalerMoves, a);
      s, run, actions := t, run + [t], actions + [a];
    }

    method Ends(c: Settings)
      requires Reached(c)
      modifies this`s, this`run, this`actions
      ensures Reached(c) && s == old(s.(scaler := Resting)) && Steps() == old(Steps()) + [ScalerFail]
      ensures run == old(run) + [s] && actions == old(actions) + [ScalerFail]
    {
      hide Trace, StepsOf;
      Take(c, ScalerFail, s.(scaler := Resting));
    }

    method Begin(c: Settings)
      requires Reached(c)
      modifies this
      ensures Reached(c) && s == first == old(s) && Steps() == []
    {
      first, run, actions := s, [s], [];
    }

    /**
      One round. An operation is written exactly when the copy of the EDS that was listed calls for a
      decision, the one decided from that copy at the time of the decision has a direction, and the
      calls succeed; a call that is answered fails only on a version that is gone. listed and decided
      are where in the run the two steps are.
    */
    method ScaleEDS(c: Settings, r: Round) returns (ok: bool, ghost listed: nat, ghost decided: nat)
      requires Reached(c) && s.scaler.Resting? && Proper(r)
      modifies this
      ensures Reached(c) && s.scaler.Resting? && first == old(s)
      ensures RoundOutcome(c, r, run, actions, listed, decided, ok)
    {
      hide Trace, StepsOf, CarriedOn, Proper;
      Begin(c);
      listed := ListsEds(c);
      decided := 0;
      var snap := s.scaler.snap;
      if Validate(Some(c)).Some? {
        Ends(c);
        return false, listed, decided;
      }
      var pending := snap.pending.Some? && snap.pending.value.operation.direction != NONE;
      if !c.enabled || pending || !(0 <= Desired(c, snap).value <= NUDGE_LIMIT) {
        Ends(c);
        return true, listed, decided;
      }
      ok, decided := UpdateScalingOperation(c, r);
    }

    method ListsEds(c: Settings) returns (ghost l: nat)
      requires Reached(c) && s.scaler.Resting?
      modifies this`s, this`run, this`actions
      ensures Reached(c) && s.scaler == Listed(s.eds) && s.written == old(s.written)
      ensures Steps() == old(Steps()) + [ListEds]
      ensures l < |actions| && actions[l] == ListEds && run[l].eds == s.eds
    {
      hide Trace, StepsOf;
      Others(c);
      l := |actions|;
      Take(c, ListEds, s.(scaler := Listed(s.eds)));
    }

    method UpdateScalingOperation(c: Settings, r: Round) returns (ok: bool, ghost d: nat)
      requires Reached(c) && s.scaler.Listed? && Proper(r) && Decides(c, s.scaler.snap)
      requires s.written == first.written
      modifies this`s, this`run, this`actions
      ensures Reached(c) && s.scaler.Resting? && old(run) <= run && old(actions) <= actions
      ensures var copy := old(s.scaler.snap);
              if r.read then
                && d < |actions| && |Steps()| >= |old(Steps())|
                && Steps()[..|old(Steps())|] == old(Steps())
                && CarriedOn(c, r, copy, run, actions, d, Steps()[|old(Steps())|..], ok)
              else
                !ok && s.written == old(s.written) && Steps() == old(Steps()) + [ScalerFail]
    {
      hide Trace, StepsOf, Decision, Decides, Proper, Decidable;
      ghost var copy, before := s.scaler.snap, Steps();
      Others(c);
      d := |actions|;
      if !r.read {
        Ends(c);
        return false, d;
      }
      DecidesScaling(c, r);
      ghost var current := s.scaler.current;
      ok := RecordsScaling(c, r.status);
      ghost var rest := [Deciding(r), if ok then RecordScaling else ScalerFail];
      if ok {
        ok := PublishesScaling(c, r.update);
        rest := rest + [if ok then PublishScaling else ScalerFail];
      }
      assert Steps() == before + rest;
      assert Steps()[|before|..] == rest;
    }

    method DecidesScaling(c: Settings, r: Round)
      requires Reached(c) && s.scaler.Listed? && Proper(r) && Decides(c, s.scaler.snap)
      modifies this`s, this`run, this`actions
      ensures r.first != [] ==> Decidable(c, r.first, r.second, Desired(c, old(s.scaler.snap)).value)
      ensures Reached(c) && Steps() == old(Steps()) + [Deciding(r)]
      ensures run == old(run) + [s] && actions == old(actions) + [Deciding(r)]
      ensures var snap := old(s.scaler.snap);
              && s.written == old(s.written) && s.scaler.Decided? && s.scaler.snap == snap
              && Some(s.scaler.current) == Desired(c, snap) && s.scaler.op == Decision(c, r, snap, old(s.now))
    {
      hide Trace, StepsOf;
      var snap := s.scaler.snap;
      DecidesIsDecidable(c, r, snap);
      var current := Desired(c, snap).value;
      var hint := ScalingHint(c, r.interval, r.metrics, HintInput(snap.lastUp, snap.lastDown, s.now, s.now));
      var op := CalculateScalingOperation(c, r.first, r.second, hint, Some(current), r.disk);
      var t := s.(scaler := Decided(snap, op, current, hint));
      hide CalculateOperation, Hint, Managed;
      Take(c, Deciding(r), t);
    }

    /** A changed node count is stamped in the status, on the version that was listed. */
    method RecordsScaling(c: Settings, status: bool) returns (ok: bool)
      requires Reached(c) && s.scaler.Decided?
      modifies this`s, this`run, this`actions
      ensures Reached(c) && s.written == old(s.written) && old(run) <= run && old(actions) <= actions
      ensures |run| >= 2 && Steps() == old(Steps()) + [if ok then RecordScaling else ScalerFail]
      ensures var snap, op, current := old(s.scaler.snap), old(s.scaler.op), old(s.scaler.current);
              if !ok then && s.scaler.Resting? && Changes(op, current)
                          && (!status || run[|run| - 2].eds.version != snap.version)
              else && s.scaler == Recorded(UpdateVersion(snap, op, current), NodesAfter(op, current), op)
                   && (Changes(op, current) ==> status && s.eds.version == s.scaler.version)
                   && (NodesAfter(op, current) > current ==> s.eds.lastUp == Some(s.now))
                   && (NodesAfter(op, current) < current ==> s.eds.lastDown == Some(s.now))
    {
      hide Trace, StepsOf;
      Others(c);
      var snap, op, current := s.scaler.snap, s.scaler.op, s.scaler.current;
      ok := true;
      if op.nodeReplicas.None? || op.nodeReplicas.value == current {
        Take(c, RecordScaling, s.(scaler := Recorded(snap.version, current, op)));
      } else if !status || s.eds.version != snap.version {
        Ends(c);
        ok := false;
      } else {
        var nodes := op.nodeReplicas.value;
        var t := s.(scaler := Recorded(s.eds.version + 1, nodes, op),
                    eds := s.eds.(version := s.eds.version + 1,
                                  lastUp := if nodes > current then Some(s.now) else s.eds.lastUp,
                                  lastDown := if nodes > current then s.eds.lastDown else Some(s.now)));
        Take(c, RecordScaling, t);
      }
    }

    /** The annotation and the replicas in one update, if the operation has a direction. */
    method PublishesScaling(c: Settings, update: bool) returns (ok: bool)
      requires Reached(c) && s.scaler.Recorded?
      modifies this`s, this`run, this`actions
      ensures Reached(c) && s.scaler.Resting? && old(run) <= run && old(actions) <= actions
      ensures |run| >= 2 && Steps() == old(Steps()) + [if ok then PublishScaling else ScalerFail]
      ensures var before := old(s.scaler);
              if !ok then && s.written == old(s.written) && before.op.direction != NONE
                          && (!update || run[|run| - 2].eds.version != before.version)
              else if before.op.direction == NONE then s.written == old(s.written)
              else && update && s.written == old(s.written) + [before.op]
                   && s.eds.replicas == Some(before.replicas)
                   && s.eds.pending == Some(Pending(|old(s.written)|, before.op))
    {
      hide Trace, StepsOf;
      Others(c);
      var op := s.scaler.op;
      ok := true;
      if op.direction == NONE {
        Take(c, PublishScaling, s.(scaler := Resting));
      } else if !update || s.eds.version != s.scaler.version {
        Ends(c);
        ok := false;
      } else {
        var t := s.(scaler := Resting, written := s.written + [op],
                    eds := s.eds.(version := s.eds.version + 1, replicas := Some(s.scaler.replicas),
                                  pending := Some(Pending(|s.written|, op))));
        Take(c, PublishScaling, t);
      }
    }
  }
}
