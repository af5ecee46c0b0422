/** How the runs of src/run.rs end: what the callers of a replaced run are told, and
    that a coordinator left to itself comes to rest with every run ended. */
module RunEnds {
  import opened Prelude
  import opened RunTable
  import opened RunInvariant
  import opened RunTheorems

  // ---- A replaced run's two ends ----------------------------------------

  ghost predicate ForwardDecided(w: World, r: RunId) {
    exists q: RunId :: (r, Moved(q)) in w.decided
  }

  /** Of a replaced run with no end yet, the end that forwards its callers is decided,
      and the one that drops them is just when its task has settled. */
  ghost predicate TwoEnds(w: World, r: RunId) {
    r < |w.states| && w.states[r].replaced && w.states[r].end.None? ==>
      && ForwardDecided(w, r)
      && ((r, Done(Dropped)) in w.decided <==> w.states[r].stage.Settled?)
  }

  lemma QueueTwoEnds(w: World, key: Key, e: nat, f: bool, r: RunId)
    requires key in w.slots && SlotOk(w, key) && TwoEnds(w, r)
    ensures TwoEnds(Queue(w, key, e, f), r)
  {
  }

  lemma ReplaceTwoEnds(w: World, key: Key, r: RunId)
    requires MayReplace(w, key) && TwoEnds(w, r)
    requires (w.slots[key].running, Done(Dropped)) !in w.decided
    ensures TwoEnds(Replace(w, key), r)
  {
    var slot := w.slots[key];
    assert (slot.running, Moved(slot.queued.value.state)) in Replace(w, key).decided;
    if ForwardDecided(w, r) {
      var q :| (r, Moved(q)) in w.decided;
      assert (r, Moved(q)) in Replace(w, key).decided;
    }
  }

  lemma AskTwoEnds(w: World, me: Caller, key: Key, state: RunId, r: RunId)
    requires TwoEnds(w, r)
    ensures TwoEnds(Ask(w, me, key, state).0, r)
  {
  }

  lemma NewSlotTwoEnds(w: World, key: Key, r: RunId)
    requires TwoEnds(w, r)
    ensures TwoEnds(NewSlot(w, key), r)
  {
  }

  lemma RunningUndecided(w: World, key: Key, e: End)
    requires Inv(w) && key in w.slots
    ensures (w.slots[key].running, e) !in w.decided
  {
    hide Inv;
    SlotOf(w, key);
    var r := w.slots[key].running;
    if (r, e) in w.decided {
      DecidedOf(w, r, e);
    }
  }

  lemma InPlaceTwoEnds(w: World, key: Key, e: nat, r: RunId)
    requires Inv(w) && key in w.slots && SlotOk(w, key) && w.slots[key].overtaken.None?
    requires w.states[w.slots[key].running].stage.Live? && TwoEnds(w, r)
    ensures var u := Queue(w, key, e, false);
      SlotIds(u, key) && key in Replace(u, key).slots && TwoEnds(Replace(u, key), r)
  {
    hide Inv, TwoEnds;
    var u := Queue(w, key, e, false);
    QueueKeepsSlot(w, key, e, false, key);
    RunningUndecided(w, key, Done(Dropped));
    QueueTwoEnds(w, key, e, false, r);
    ReplaceTwoEnds(u, key, r);
  }

  lemma StartTwoEnds(w: World, a: Action, r: RunId)
    requires Inv(w) && Enabled(w, a) && Sound(w, a) && a.DoStart? && TwoEnds(w, r)
    ensures TwoEnds(Start(w, a.caller, a.want, a.key, a.epoch, a.found).0, r)
  {
    hide Inv, Ask, Queue, Replace, TwoEnds, NewSlot;
    var DoStart(me, want, key, e, found) := a;
    if key in w.slots {
      var slot := w.slots[key];
      SlotOf(w, key);
      AskTwoEnds(w, me, key, slot.running, r);
      if want.Changed? && slot.overtaken.None? && !found.sees {
        InPlaceTwoEnds(w, key, e, r);
        var v := Replace(Queue(w, key, e, false), key);
        AskTwoEnds(v, me, key, v.slots[key].running, r);
      }
      var u := Queue(w, key, e, want.Forced?);
      QueueTwoEnds(w, key, e, want.Forced?, r);
      AskTwoEnds(u, me, key, u.slots[key].queued.value.state, r);
    } else {
      NewSlotTwoEnds(w, key, r);
      AskTwoEnds(NewSlot(w, key), me, key, |w.states|, r);
    }
  }

  lemma MarkTwoEnds(w: World, key: Key, mark: Overtaken, r: RunId)
    requires key in w.slots && SlotIds(w, key) && TwoEnds(w, r)
    ensures TwoEnds(Mark(w, key, mark), r)
  {
  }

  lemma SupersedeTwoEnds(w: World, key: Key, how: Overtake, e: nat, r: RunId)
    requires Inv(w) && (key in w.slots ==> SlotIds(w, key)) && TwoEnds(w, r)
    ensures TwoEnds(Supersede(w, key, how, e), r)
  {
    hide Inv, TwoEnds, Mark;
    if key in w.slots {
      SlotOf(w, key);
      if how.Again? {
        QueueTwoEnds(w, key, e, false, r);
        QueueKeepsSlot(w, key, e, false, key);
        MarkTwoEnds(Queue(w, key, e, false), key, OvertakenAgain, r);
      } else {
        MarkTwoEnds(w, key, OvertakenGone(e), r);
      }
    }
  }

  lemma SettleTwoEnds(w: World, s: RunId, result: Option<Outcome>, ahead: Ahead, r: RunId)
    requires MaySettle(w, s) && TwoEnds(w, r)
    requires s < |w.states| && (IsRunning(w, s) ==> !w.states[s].replaced)
    ensures TwoEnds(Settle(w, s, result, ahead), r)
  {
    var v := Settle(w, s, result, ahead);
    if ForwardDecided(w, r) {
      var q :| (r, Moved(q)) in w.decided;
      assert (r, Moved(q)) in v.decided;
    }
  }

  lemma FinishTwoEnds(w: World, s: RunId, end: End, r: RunId)
    requires s < |w.states| && (s, end) in w.decided && TwoEnds(w, r)
    ensures TwoEnds(Finish(w, s, end), r)
  {
    if s != r && ForwardDecided(w, r) {
      var q :| (r, Moved(q)) in w.decided;
      assert (r, Moved(q)) in Finish(w, s, end).decided;
    }
  }

  lemma StepTwoEnds(w: World, a: Action, r: RunId)
    requires Inv(w) && Enabled(w, a) && TwoEnds(w, r)
    ensures TwoEnds(Step(w, a), r)
  {
    hide Inv, TwoEnds, Start, Supersede, Settle, Finish, MaySettle;
    SoundAlways(w, a);
    match a
    case DoStart(me, want, key, epoch, found) => StartTwoEnds(w, a, r);
    case DoSupersede(key, how, epoch) => SupersedeTwoEnds(w, key, how, epoch, r);
    case DoSettle(s, result, ahead) =>
      LiveMaySettle(w, s);
      StateOf(w, s);
      if IsRunning(w, s) {
        SlotOf(w, w.states[s].key);
      }
      SettleTwoEnds(w, s, result, ahead, r);
    case DoLaunch(s) =>
      StateOf(w, s);
      LaunchTwoEnds(w, s, r);
    case DoFinish(s, end) => FinishTwoEnds(w, s, end, r);
    case DoFollow(me) => WaitTwoEnds(w, me, r);
    case DoReturn(me) => WaitTwoEnds(w, me, r);
  }

  lemma LaunchTwoEnds(w: World, s: RunId, r: RunId)
    requires s < |w.states| && w.states[s].stage.Starting? && !w.states[s].replaced && TwoEnds(w, r)
    ensures TwoEnds(Launch(w, s), r)
  {
    if ForwardDecided(w, r) {
      var q :| (r, Moved(q)) in w.decided;
      assert (r, Moved(q)) in Launch(w, s).decided;
    }
  }

  lemma WaitTwoEnds(w: World, me: RunId, r: RunId)
    requires TwoEnds(w, r)
    ensures TwoEnds(Follow(w, me), r) && TwoEnds(Return(w, me), r)
  {
  }

  lemma {:induction false} LeadsTwoEnds(w: World, trace: seq<Action>, v: World, r: RunId)
    requires Inv(w) && Leads(w, trace, v) && TwoEnds(w, r)
    ensures TwoEnds(v, r)
    decreases |trace|
  {
    hide Inv, Step, TwoEnds;
    if trace != [] {
      StepKeeps(w, trace[0]);
      StepTwoEnds(w, trace[0], r);
      LeadsTwoEnds(Step(w, trace[0]), trace[1..], v, r);
    }
  }

  lemma ReachableTwoEnds(w: World, r: RunId)
    requires Reachable(w)
    ensures TwoEnds(w, r)
  {
    hide Inv, Leads;
    var trace :| Leads(INIT, trace, w);
    InitInv();
    assert TwoEnds(INIT, r);
    LeadsTwoEnds(INIT, trace, w, r);
  }

  lemma ReachableStep(w: World, a: Action)
    requires Reachable(w) && Enabled(w, a)
    ensures Reachable(Step(w, a))
  {
    hide Step, Enabled, Leads;
    var trace :| Leads(INIT, trace, w);
    LeadsAppend(INIT, trace, w, a);
  }

  lemma OneStepLeads(w: World, a: Action)
    requires Enabled(w, a)
    ensures Leads(w, [a], Step(w, a))
  {
    hide Step, Enabled;
    LeadsAppend(w, [], w, a);
    assert [] + [a] == [a];
  }

  /** As long as the end that forwards a replaced run's callers is not written, there is
      a way on which they are told Dropped. */
  lemma MayStillBeDropped(w: World, r: RunId) returns (trace: seq<Action>, v: World)
    requires Reachable(w) && r < |w.states| && w.states[r].replaced
    requires w.states[r].end.None? || !w.states[r].end.value.Moved?
    ensures Leads(w, trace, v) && r < |v.states| && v.states[r].end == Some(Done(Dropped))
  {
    hide Inv, Reachable, Leads, Settle, TwoEnds;
    ReachableInv(w);
    StateOf(w, r);
    if w.states[r].end.Some? {
      ReplacedRunForwards(w, r);
      trace, v := [], w;
      assert Leads(w, [], w) by { NoStepLeads(w); }
    } else if w.states[r].stage.Settled? {
      trace, v := WriteDropped(w, r);
    } else {
      var a := DoSettle(r, None, Ahead(false, false, false));
      var u := Step(w, a);
      SettleAway(w, r);
      ReachableStep(w, a);
      OneStepLeads(w, a);
      var rest;
      rest, v := WriteDropped(u, r);
      trace := [a] + rest;
      LeadsJoin(w, [a], u, rest, v);
    }
  }

  lemma NoStepLeads(w: World)
    ensures Leads(w, [], w)
  {
  }

  lemma {:induction false} LeadsJoin(a: World, s: seq<Action>, b: World, t: seq<Action>, c: World)
    requires Leads(a, s, b) && Leads(b, t, c)
    ensures Leads(a, s + t, c)
    decreases |s|
  {
    hide Step, Enabled;
    if s == [] {
      assert s + t == t;
    } else {
      assert (s + t)[1..] == s[1..] + t;
      LeadsJoin(Step(a, s[0]), s[1..], b, t, c);
    }
  }

  /** The task of a replaced run settles for itself alone. */
  lemma SettleAway(w: World, r: RunId)
    requires Reachable(w) && r < |w.states| && w.states[r].replaced && w.states[r].end.None? && w.states[r].stage.Live?
    ensures var a := DoSettle(r, None, Ahead(false, false, false));
      && Enabled(w, a)
      && (var u := Step(w, a);
          r < |u.states| && u.states[r].replaced && u.states[r].end.None? && u.states[r].stage.Settled?)
  {
    hide Inv, Reachable, Leads;
    ReachableInv(w);
    SoundAlways(w, DoSettle(r, None, Ahead(false, false, false)));
    if w.states[r].key in w.slots {
      SlotOf(w, w.states[r].key);
    }
  }

  lemma WriteDropped(w: World, r: RunId) returns (trace: seq<Action>, v: World)
    requires Reachable(w) && r < |w.states| && w.states[r].replaced && w.states[r].end.None? && w.states[r].stage.Settled?
    ensures Leads(w, trace, v) && r < |v.states| && v.states[r].end == Some(Done(Dropped))
  {
    hide Inv, Reachable, Leads;
    ReachableTwoEnds(w, r);
    var a := DoFinish(r, Done(Dropped));
    trace, v := [a], Step(w, a);
    OneStepLeads(w, a);
  }

  /** Whatever comes, a replaced run's callers will be forwarded if and only if the end
      that forwards them has been written. */
  lemma ForwardedExactly(w: World, r: RunId)
    requires Reachable(w) && r < |w.states| && w.states[r].replaced
    ensures (forall trace, v {:trigger Leads(w, trace, v)} |
               Leads(w, trace, v) && r < |v.states| && v.states[r].end.Some? :: v.states[r].end.value.Moved?)
      <==> w.states[r].end.Some? && w.states[r].end.value.Moved?
  {
    hide Inv, Reachable, Leads;
    if w.states[r].end.Some? && w.states[r].end.value.Moved? {
      ReachableInv(w);
      forall trace, v | Leads(w, trace, v) && r < |v.states| && v.states[r].end.Some?
        ensures v.states[r].end.value.Moved?
      {
        LeadsLater(w, trace, v);
        assert LaterState(w, v, r);
      }
    } else {
      var trace, v := MayStillBeDropped(w, r);
    }
  }

  // ---- Coming to rest ---------------------------------------------------

  /** A coordinator that has not come to rest has a step to take by itself. */
  lemma BusyCanStep(w: World) returns (a: Action)
    requires Reachable(w) && !Quiet(w)
    ensures Enabled(w, a) && Internal(a)
  {
    hide Reachable, Inv, Leads;
    if r: RunId :| r < |w.states| && w.states[r].stage.Starting? {
      a := DoLaunch(r);
    } else if r: RunId :| r < |w.states| && w.states[r].stage.Live? && r !in w.waits {
      a := DoSettle(r, None, Ahead(false, false, false));
    } else if d :| d in w.decided {
      a := DoFinish(d.0, d.1);
    } else {
      var me :| me in w.blocked && EndAt(w, w.blocked[me]).Some?;
      a := if EndAt(w, w.blocked[me]).value.Moved? then DoFollow(me) else DoReturn(me);
    }
  }

  ghost predicate AllInternal(trace: seq<Action>) {
    forall i | 0 <= i < |trace| :: Internal(trace[i])
  }

  /** Left to itself it comes to rest. */
  lemma ComesToRest(w: World) returns (trace: seq<Action>, v: World)
    requires Reachable(w)
    ensures Leads(w, trace, v) && AllInternal(trace) && Quiet(v)
    decreases Work(w)
  {
    hide Reachable, Quiet, Leads, Step, Enabled, Work;
    if Quiet(w) {
      trace, v := [], w;
      NoStepLeads(w);
    } else {
      var a := BusyCanStep(w);
      InternalStepsRunOut(w, a);
      ReachableStep(w, a);
      var rest;
      rest, v := ComesToRest(Step(w, a));
      trace := [a] + rest;
      OneStepLeads(w, a);
      LeadsJoin(w, [a], Step(w, a), rest, v);
    }
  }

  lemma {:induction false} InternalTraceRunsOut(w: World, trace: seq<Action>, v: World)
    requires Reachable(w) && Leads(w, trace, v) && AllInternal(trace)
    ensures Reachable(v) && |trace| + Work(v) <= Work(w)
    decreases |trace|
  {
    hide Reachable, Step, Enabled, Work, Internal;
    if trace != [] {
      assert Internal(trace[0]);
      InternalStepsRunOut(w, trace[0]);
      ReachableStep(w, trace[0]);
      InternalTraceRunsOut(Step(w, trace[0]), trace[1..], v);
    }
  }

  /** However the coordinator goes on by itself, it does so for no more steps than it
      has work; and where it can take none, every run ever asked for has ended. */
  lemma EveryRunEnds(w: World, trace: seq<Action>, v: World)
    requires Reachable(w) && Leads(w, trace, v) && AllInternal(trace)
    requires forall a | Enabled(v, a) :: !Internal(a)
    ensures |trace| <= Work(w)
    ensures |v.states| >= |w.states| && v.slots == map[] && v.waits == map[]
    ensures forall r | 0 <= r < |v.states| :: v.states[r].end.Some?
  {
    hide Reachable, Inv, Leads, Work;
    InternalTraceRunsOut(w, trace, v);
    ReachableInv(w);
    LeadsLater(w, trace, v);
    if !Quiet(v) {
      var a := BusyCanStep(v);
    }
    QuietHasDrained(v);
  }
}
