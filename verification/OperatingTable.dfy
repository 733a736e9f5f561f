/**
  The operating table of operator/elasticsearch.go and the Run loops of operator/operator.go it
  points to. A handler runs under one lock. It cancels the loop registered for its resource and
  waits for the token that a loop sends exactly once, as it ends, over an unbuffered channel.
*/
module OperatingTable {
  import opened Base

  /** An add, update or delete event; owned is what hasOwnership says of the object. */
  datatype Event = Event(uid: nat, deleted: bool, owned: bool)

  /** An event that starts a loop. */
  predicate Starts(e: Event) {
    !e.deleted && e.owned
  }

  datatype Phase =
    | Working
    | Cancelled  // its context is cancelled, it has yet to notice
    | Handing    // blocked on sending its token
    | Over

  datatype Loop = Loop(uid: nat, phase: Phase)

  datatype Handler = Free | Waiting(event: Event, id: nat)

  /** A loop is named by its position; handled lists the events whose handler has returned. */
  datatype State = State(table: map<nat, nat>, loops: seq<Loop>, handler: Handler, handled: seq<Event>)

  // ----- steps -----

  function WithPhase(s: State, id: nat, phase: Phase): State
    requires id < |s.loops|
  {
    s.(loops := s.loops[id := s.loops[id].(phase := phase)])
  }

  /** The rest of operateEDS once no loop has to be waited for. */
  function Settle(s: State, e: Event): State {
    var t := s.(handler := Free, handled := s.handled + [e]);
    if e.deleted || !e.owned then t
    else t.(table := s.table[e.uid := |s.loops|], loops := s.loops + [Loop(e.uid, Working)])
  }

  ghost predicate BeginStep(s: State, e: Event, t: State) {
    && s.handler.Free?
    && if e.uid !in s.table then t == Settle(s, e)
       else
         var id := s.table[e.uid];
         && id < |s.loops|
         && t == (if s.loops[id].phase == Working then WithPhase(s, id, Cancelled) else s).(handler := Waiting(e, id))
  }

  /** A cancelled loop comes back to its select statement and ends. */
  ghost predicate NoticeStep(s: State, id: nat, t: State) {
    id < |s.loops| && s.loops[id].phase == Cancelled && t == WithPhase(s, id, Handing)
  }

  /** The token passes from a loop that sends it to the handler that waits for it. */
  ghost predicate HandOverStep(s: State, t: State) {
    && s.handler.Waiting? && s.handler.id < |s.loops| && s.loops[s.handler.id].phase == Handing
    && t == Settle(WithPhase(s, s.handler.id, Over), s.handler.event)
  }

  datatype Step = Begin(event: Event) | Notice(id: nat) | HandOver

  ghost predicate Next(s: State, a: Step, t: State) {
    match a
    case Begin(e) => BeginStep(s, e, t)
    case Notice(id) => NoticeStep(s, id, t)
    case HandOver => HandOverStep(s, t)
  }

  const EMPTY: State := State(map[], [], Free, [])

  ghost predicate Trace(run: seq<State>, steps: seq<Step>) {
    && |run| == |steps| + 1
    && forall i :: 0 <= i < |steps| ==> Next(run[i], steps[i], run[i + 1])
  }

  ghost predicate Run(run: seq<State>, steps: seq<Step>) {
    Trace(run, steps) && run[0] == EMPTY
  }

  // ----- what every run keeps -----

  /** The last handled event for a resource. */
  function Latest(handled: seq<Event>, uid: nat): Option<Event> {
    if handled == [] then None
    else if handled[|handled| - 1].uid == uid then Some(handled[|handled| - 1])
    else Latest(handled[..|handled| - 1], uid)
  }

  predicate EverStarted(handled: seq<Event>, uid: nat) {
    exists i :: 0 <= i < |handled| && handled[i].uid == uid && Starts(handled[i])
  }

  /** No loop was ever started for the resource, or its latest event started one. */
  predicate NeverStoppedLast(handled: seq<Event>, uid: nat) {
    EverStarted(handled, uid) ==> Latest(handled, uid).Some? && Starts(Latest(handled, uid).value)
  }

  /** Table entries and the loops that are not over name each other. */
  ghost predicate TableInv(s: State) {
    && (forall uid :: uid in s.table ==> s.table[uid] < |s.loops| && s.loops[s.table[uid]].uid == uid)
    && (forall id :: 0 <= id < |s.loops| && s.loops[id].phase != Over ==>
          s.loops[id].uid in s.table && s.table[s.loops[id].uid] == id)
  }

  /** A loop is cancelled only by the handler that waits for it. */
  ghost predicate WaitInv(s: State) {
    && (forall id :: 0 <= id < |s.loops| && s.loops[id].phase in {Cancelled, Handing} ==>
          s.handler.Waiting? && s.handler.id == id)
    && (s.handler.Waiting? ==>
          s.handler.id < |s.loops| && s.loops[s.handler.id].phase != Working
          && s.handler.event.uid in s.table && s.table[s.handler.event.uid] == s.handler.id)
  }

  /** What the table says about the events: an entry whose loop is over had a later event. */
  ghost predicate HistoryInv(s: State) {
    && (forall uid :: uid in s.table <==> EverStarted(s.handled, uid))
    && (forall uid :: uid in s.table && s.table[uid] < |s.loops| ==>
          Latest(s.handled, uid).Some?
          && (s.loops[s.table[uid]].phase == Over <==> !Starts(Latest(s.handled, uid).value)))
  }

  ghost predicate Inv(s: State) {
    TableInv(s) && WaitInv(s) && HistoryInv(s)
  }

  lemma HandledMore(handled: seq<Event>, e: Event)
    ensures forall uid :: Latest(handled + [e], uid) == if uid == e.uid then Some(e) else Latest(handled, uid)
    ensures forall uid :: EverStarted(handled + [e], uid) <==> EverStarted(handled, uid) || (uid == e.uid && Starts(e))
  {
    var more := handled + [e];
    assert more[..|handled|] == handled;
    forall uid ensures EverStarted(more, uid) <==> EverStarted(handled, uid) || (uid == e.uid && Starts(e)) {
      if EverStarted(handled, uid) {
        var i :| 0 <= i < |handled| && handled[i].uid == uid && Starts(handled[i]);
        assert more[i] == handled[i];
      } else if uid == e.uid && Starts(e) {
        assert more[|handled|] == e;
      }
    }
  }

  /** Settling an event whose resource has no loop left that is not over. */
  lemma SettleKeepsInv(s: State, e: Event)
    requires TableInv(s) && HistoryInvBut(s, e.uid)
    requires forall id :: 0 <= id < |s.loops| ==> s.loops[id].phase in {Working, Over}
    requires e.uid in s.table ==> s.loops[s.table[e.uid]].phase == Over
    ensures Inv(Settle(s, e))
  {
    HandledMore(s.handled, e);
    hide EverStarted, Latest;
  }

  /** HistoryInv, except that the loop of one resource may just have ended. */
  ghost predicate HistoryInvBut(s: State, but: nat) {
    && (forall uid :: uid in s.table <==> EverStarted(s.handled, uid))
    && (forall uid :: uid in s.table && s.table[uid] < |s.loops| && uid != but ==>
          Latest(s.handled, uid).Some?
          && (s.loops[s.table[uid]].phase == Over <==> !Starts(Latest(s.handled, uid).value)))
  }

  lemma InvStep(s: State, a: Step, t: State)
    requires Inv(s) && Next(s, a, t)
    ensures Inv(t)
  {
    match a
    case Begin(e) =>
      if e.uid !in s.table {
        SettleKeepsInv(s, e);
      }
      hide EverStarted, Latest;
    case Notice(id) =>
      hide EverStarted, Latest;
    case HandOver =>
      hide EverStarted, Latest;
      HandOverKeepsInv(s, t);
  }

  lemma HandOverKeepsInv(s: State, t: State)
    requires Inv(s) && HandOverStep(s, t)
    ensures Inv(t)
  {
    hide EverStarted, Latest, Inv;
    assert TableInv(s) && WaitInv(s) && HistoryInv(s) by {
      AllOf(s);
    }
    SettleKeepsInv(WithPhase(s, s.handler.id, Over), s.handler.event);
  }

  lemma AllOf(s: State)
    requires Inv(s)
    ensures TableInv(s) && WaitInv(s) && HistoryInv(s)
  {
  }

  lemma {:induction false} InvAlways(run: seq<State>, steps: seq<Step>, i: nat)
    requires Run(run, steps) && i < |run|
    ensures Inv(run[i])
  {
    if i > 0 {
      InvAlways(run, steps, i - 1);
      hide Next, Inv;
      InvStep(run[i - 1], steps[i - 1], run[i]);
    }
  }

  /**
    Main result. Whatever events arrive in whatever order, no two loops of one resource are
    ever started and not over.
  */
  lemma OneLoopPerResource(run: seq<State>, steps: seq<Step>, i: nat, j: nat, k: nat)
    requires Run(run, steps) && i < |run| && j < k < |run[i].loops|
    requires run[i].loops[j].uid == run[i].loops[k].uid
    ensures run[i].loops[j].phase == Over || run[i].loops[k].phase == Over
  {
    InvAlways(run, steps, i);
  }

  // ----- whether a handler returns -----

  /** From a state in which the lock is free, the event can be handled. */
  ghost predicate CanReturn(s: State, e: Event) {
    exists run: seq<State>, steps: seq<Step> :: Trace(run, steps) && steps != [] && run[0] == s && steps[0] == Begin(e)
                         && run[|run| - 1].handler.Free?
  }

  /** Waiting for a loop that is over. */
  ghost predicate Stuck(s: State) {
    s.handler.Waiting? && s.handler.id < |s.loops| && s.loops[s.handler.id].phase == Over
  }

  /** A handler that waits for a spent token waits for ever, and with it, behind the lock, every later event. */
  lemma {:induction false} StuckForEver(run: seq<State>, steps: seq<Step>, i: nat, j: nat)
    requires Trace(run, steps) && i <= j < |run| && Stuck(run[i])
    ensures Stuck(run[j]) && run[j].handled == run[i].handled
    decreases j
  {
    if i < j {
      StuckForEver(run, steps, i, j - 1);
      assert Next(run[j - 1], steps[j - 1], run[j]);
    }
  }

  /** The state in which the handler of an event returns, unless it waits for a spent token. */
  function Returned(s: State, e: Event): State
    requires e.uid in s.table ==> s.table[e.uid] < |s.loops|
  {
    if e.uid in s.table then Settle(WithPhase(s, s.table[e.uid], Over), e) else Settle(s, e)
  }

  lemma ReturnsWithin(s: State, e: Event) returns (run: seq<State>, steps: seq<Step>)
    requires Inv(s) && s.handler.Free?
    requires e.uid in s.table ==> s.loops[s.table[e.uid]].phase != Over
    ensures Trace(run, steps) && steps != [] && run[0] == s && steps[0] == Begin(e)
    ensures run[|run| - 1] == Returned(s, e)
  {
    if e.uid !in s.table {
      run, steps := [s, Returned(s, e)], [Begin(e)];
    } else {
      var id := s.table[e.uid];
      var s1 := WithPhase(s, id, Cancelled).(handler := Waiting(e, id));
      var s2 := WithPhase(s1, id, Handing);
      var s3 := Settle(WithPhase(s2, id, Over), e);
      assert s.loops[id].phase == Working;
      assert BeginStep(s, e, s1) && NoticeStep(s1, id, s2) && HandOverStep(s2, s3);
      assert WithPhase(s2, id, Over).loops == WithPhase(s, id, Over).loops;
      run, steps := [s, s1, s2, s3], [Begin(e), Notice(id), HandOver];
    }
  }

  /**
    Main result. In every run, with the lock free, the handler of the next event can return
    exactly when its resource was never started or was started by its latest event. After an
    event that left the entry in the table without a loop (a deletion, or an object no longer
    owned) the next event for that resource blocks for ever.
  */
  lemma NextEventReturns(run: seq<State>, steps: seq<Step>, i: nat, e: Event)
    requires Run(run, steps) && i < |run| && run[i].handler.Free?
    ensures CanReturn(run[i], e) <==> NeverStoppedLast(run[i].handled, e.uid)
  {
    InvAlways(run, steps, i);
    var s := run[i];
    hide EverStarted, Latest;
    if e.uid in s.table && s.loops[s.table[e.uid]].phase == Over {
      SpentTokenBlocks(s, e);
    } else {
      var more, also := ReturnsWithin(s, e);
      assert CanReturn(s, e) by {
        assert more[|more| - 1].handler.Free?;
      }
    }
  }

  lemma SpentTokenBlocks(s: State, e: Event)
    requires s.handler.Free? && e.uid in s.table && s.table[e.uid] < |s.loops|
    requires s.loops[s.table[e.uid]].phase == Over
    ensures !CanReturn(s, e)
  {
    if CanReturn(s, e) {
      var run: seq<State>, steps: seq<Step> :| Trace(run, steps) && steps != [] && run[0] == s && steps[0] == Begin(e)
                        && run[|run| - 1].handler.Free?;
      assert Next(run[0], steps[0], run[1]);
      StuckForEver(run, steps, 1, |run| - 1);
    }
  }

  // ----- with fair loops the handler does return -----

  /** A step, or a moment in which none of this changes. */
  ghost predicate Goes(s: State, a: Step, t: State) {
    Next(s, a, t) || t == s
  }

  /** A loop that can notice its cancellation or pass its token does so in the end. */
  ghost predicate Fair(run: nat -> State, steps: nat -> Step) {
    forall i: nat :: run(i).handler.Waiting? && !Stuck(run(i)) ==> LoopActs(run, steps, i)
  }

  ghost predicate LoopActs(run: nat -> State, steps: nat -> Step, i: nat) {
    exists m: nat :: i <= m && ActsAt(run, steps, m)
  }

  ghost predicate ActsAt(run: nat -> State, steps: nat -> Step, m: nat) {
    !steps(m).Begin? && Next(run(m), steps(m), run(m + 1))
  }

  ghost predicate FairRun(run: nat -> State, steps: nat -> Step) {
    && run(0) == EMPTY && Fair(run, steps)
    && forall i: nat :: Goes(run(i), steps(i), run(i + 1))
  }

  lemma {:induction false} FairRunInv(run: nat -> State, steps: nat -> Step, i: nat)
    requires FairRun(run, steps)
    ensures Inv(run(i))
  {
    if i > 0 {
      FairRunInv(run, steps, i - 1);
      hide Next, Inv, Fair;
      assert Goes(run(i - 1), steps(i - 1), run(i));
      if Next(run(i - 1), steps(i - 1), run(i)) {
        InvStep(run(i - 1), steps(i - 1), run(i));
      }
    }
  }

  /** What is left to happen before a waiting handler returns. */
  function ToHappen(s: State): nat {
    if s.handler.Free? || s.handler.id >= |s.loops| then 0
    else if s.loops[s.handler.id].phase == Handing then 1 else 2
  }

  /** While a handler waits, the only steps are those of the loop it waits for. */
  lemma WaitingStep(s: State, a: Step, t: State)
    requires Inv(s) && Next(s, a, t) && s.handler.Waiting? && !Stuck(s)
    ensures if a.HandOver? then t.handled == s.handled + [s.handler.event]
            else t.handler == s.handler && t.handled == s.handled && !Stuck(t) && ToHappen(t) < ToHappen(s)
  {
    hide EverStarted, Latest;
  }

  lemma LoopWillAct(run: nat -> State, steps: nat -> Step, i: nat) returns (m: nat)
    requires FairRun(run, steps) && run(i).handler.Waiting? && !Stuck(run(i))
    ensures i <= m && ActsAt(run, steps, m)
  {
    hide ActsAt, Stuck, Goes;
    assert LoopActs(run, steps, i);
    m :| i <= m && ActsAt(run, steps, m);
  }

  lemma FairRunStep(run: nat -> State, steps: nat -> Step, i: nat)
    requires FairRun(run, steps)
    ensures Inv(run(i)) && Goes(run(i), steps(i), run(i + 1))
  {
    FairRunInv(run, steps, i);
    hide Inv, Goes, Fair;
  }

  lemma {:induction false} LoopLetsGo(run: nat -> State, steps: nat -> Step, i: nat, m: nat) returns (j: nat)
    requires FairRun(run, steps) && run(i).handler.Waiting? && !Stuck(run(i))
    requires i <= m && ActsAt(run, steps, m)
    ensures i < j && run(j).handled == run(i).handled + [run(i).handler.event]
    decreases ToHappen(run(i)), m - i
  {
    hide FairRun, Inv, Stuck, ToHappen, Next;
    FairRunStep(run, steps, i);
    if Next(run(i), steps(i), run(i + 1)) {
      WaitingStep(run(i), steps(i), run(i + 1));
      if steps(i).HandOver? {
        j := i + 1;
      } else {
        var next := LoopWillAct(run, steps, i + 1);
        j := LoopLetsGo(run, steps, i + 1, next);
      }
    } else {
      j := LoopLetsGo(run, steps, i + 1, m);
    }
  }

  /**
    Main result. With fair loops every handler that can return does: after the next event for an EDS
    that was never started, or was started by its latest event, that event gets handled.
  */
  lemma FairHandlerReturns(run: nat -> State, steps: nat -> Step, i: nat) returns (j: nat)
    requires FairRun(run, steps) && steps(i).Begin? && Next(run(i), steps(i), run(i + 1))
    requires NeverStoppedLast(run(i).handled, steps(i).event.uid)
    ensures i < j && run(j).handled == run(i).handled + [steps(i).event]
  {
    hide FairRun, Inv, Stuck, NeverStoppedLast;
    FairRunStep(run, steps, i);
    BegunHandler(run(i), steps(i).event, run(i + 1));
    if run(i + 1).handler.Free? {
      j := i + 1;
    } else {
      var m := LoopWillAct(run, steps, i + 1);
      j := LoopLetsGo(run, steps, i + 1, m);
    }
  }

  lemma BegunHandler(s: State, e: Event, t: State)
    requires Inv(s) && BeginStep(s, e, t) && NeverStoppedLast(s.handled, e.uid)
    ensures if t.handler.Free? then t.handled == s.handled + [e]
            else t.handler.event == e && t.handled == s.handled && !Stuck(t)
  {
    hide EverStarted, Latest;
  }

  // ----- operateEDS -----

  /** The operator's table with the loops it has started. */
  class ElasticsearchOperator {
    var operating: map<nat, nat>
    var loops: seq<Loop>
    ghost var handled: seq<Event>

    /** Between two handlers. */
    ghost function Value(): State
      reads this
    {
      State(operating, loops, Free, handled)
    }

    constructor ()
      ensures Value() == EMPTY
    {
      operating, loops, handled := map[], [], [];
    }

    /** One handler. It answers whether it returned; if not, it holds the lock for ever. */
    method OperateEDS(e: Event) returns (returned: bool)
      requires Inv(Value())
      modifies this
      ensures returned <==> NeverStoppedLast(old(handled), e.uid)
      ensures returned ==> Value() == Returned(old(Value()), e) && Inv(Value())
      ensures !returned ==> Value() == old(Value())
    {
      ghost var before := Value();
      if e.uid in operating {
        var id := operating[e.uid];
        if loops[id].phase == Over {
          return false;
        }
        loops := loops[id := loops[id].(phase := Over)];
      }
      returned := true;
      handled := handled + [e];
      ReturnedKeepsInv(before, e);
      if e.deleted {
        return;
      }
      if !e.owned {
        return;
      }
      operating := operating[e.uid := |loops|];
      loops := loops + [Loop(e.uid, Working)];
    }
  }

  lemma ReturnedKeepsInv(s: State, e: Event)
    requires Inv(s) && s.handler.Free?
    requires e.uid in s.table ==> s.loops[s.table[e.uid]].phase != Over
    ensures Inv(Returned(s, e))
  {
    hide EverStarted, Latest;
    if e.uid in s.table {
      SettleKeepsInv(WithPhase(s, s.table[e.uid], Over), e);
    } else {
      SettleKeepsInv(s, e);
    }
  }
}
