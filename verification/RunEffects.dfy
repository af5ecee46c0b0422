/** What each step of the run coordinator does for its callers: which run a caller is
    handed, what a reload makes of a run in flight, and what a run's callers are told when
    it is over. All of it is read off the table, the States and the decided ends. */
module RunEffects {
  import opened Prelude
  import opened WaitGraph
  import opened RunTable
  import opened RunInvariant
  import opened RunTheorems
  import opened RunEnds

  /** Of a slot's runs nothing is decided yet. */
  lemma Undecided(w: World, r: RunId, e: End)
    requires Inv(w) && (IsRunning(w, r) || IsQueued(w, r))
    ensures (r, e) !in w.decided
  {
    hide Inv;
    if (r, e) in w.decided {
      DecidedOf(w, r, e);
      assert false;
    }
  }

  // ---- A run is over ----------------------------------------------------

  /** The slot of a run in flight, and its settling. */
  function SlotAt(w: World, r: RunId): Slot
    requires IsRunning(w, r)
  {
    w.slots[w.states[r].key]
  }

  /** What the callers of the run in flight are to be told: its own outcome, or Dropped
      where it has none; after a reload, where the run queued behind it goes, or Dropped
      if its Source is gone. */
  function Told(w: World, r: RunId, result: Option<Outcome>): End
    requires IsRunning(w, r)
  {
    var slot := SlotAt(w, r);
    if !w.states[r].overtook then Done(if result.Some? then result.value else Dropped)
    else if slot.overtaken == Some(OvertakenAgain) && slot.queued.Some? then Moved(slot.queued.value.state)
    else Done(Dropped)
  }

  /** The run queued behind `r` begins: the task of `r` was not dropped, the daemon is
      there, the Source too, nothing holds the instance back unless the run is forced, and
      no reload since it was queued has done away with the Source. */
  predicate Begins(w: World, r: RunId, result: Option<Outcome>, ahead: Ahead)
    requires IsRunning(w, r) && SlotAt(w, r).queued.Some?
  {
    var slot := SlotAt(w, r);
    && result.Some? && ahead.runtime && ahead.known && (slot.queued.value.forced || !ahead.backoff)
    && match slot.overtaken
       case Some(OvertakenGone(epoch)) => epoch <= slot.queued.value.epoch
       case _ => true
  }

  /** The run in flight settles. Exactly one end is decided for it. It is stored if and
      only if it was not overtaken and its outcome is Stored. */
  lemma InFlightSettles(w: World, r: RunId, result: Option<Outcome>, ahead: Ahead)
    requires Reachable(w) && Enabled(w, DoSettle(r, result, ahead)) && IsRunning(w, r)
    ensures var v := Step(w, DoSettle(r, result, ahead));
      && (forall e :: (r, e) in v.decided <==> e == Told(w, r, result))
      && v.stores == (if !w.states[r].overtook && result == Some(Stored) then w.stores + [r] else w.stores)
      && v.states[r].stage.Settled? && v.states[r].end.None?
  {
    hide Inv, Reachable, Settle, RunsNext;
    ReachableInv(w);
    SoundAlways(w, DoSettle(r, result, ahead));
    SlotOf(w, w.states[r].key);
    SettlesHere(w, r, result, ahead);
    forall e
      ensures (r, e) !in w.decided
    {
      Undecided(w, r, e);
    }
  }

  lemma SettlesHere(w: World, r: RunId, result: Option<Outcome>, ahead: Ahead)
    requires Inv(w) && Enabled(w, DoSettle(r, result, ahead)) && IsRunning(w, r)
    requires Sound(w, DoSettle(r, result, ahead)) && SlotOk(w, w.states[r].key)
    ensures var v := Settle(w, r, result, ahead);
      && v.decided == w.decided + {(r, Told(w, r, result))}
           + (if SlotAt(w, r).queued.Some? && !Begins(w, r, result, ahead) then {(SlotAt(w, r).queued.value.state, Done(Dropped))} else {})
      && v.stores == (if Told(w, r, result) == Done(Stored) then w.stores + [r] else w.stores)
      && |v.states| == |w.states| && v.states[r].stage.Settled? && v.states[r].end == w.states[r].end
  {
    hide Inv;
  }

  /** The run queued behind it is in flight then, if it may begin; and else it is let go
      and its callers are told Dropped. */
  lemma QueuedIsNext(w: World, r: RunId, result: Option<Outcome>, ahead: Ahead)
    requires Reachable(w) && Enabled(w, DoSettle(r, result, ahead)) && IsRunning(w, r) && SlotAt(w, r).queued.Some?
    ensures var v, key, q := Step(w, DoSettle(r, result, ahead)), w.states[r].key, SlotAt(w, r).queued.value.state;
      && |v.states| == |w.states|
      && (forall e :: (q, e) in v.decided <==> !Begins(w, r, result, ahead) && e == Done(Dropped))
      && v.slots == (if Begins(w, r, result, ahead) then w.slots[key := Slot(q, None, None)] else w.slots - {key})
      && (Begins(w, r, result, ahead) <==> v.states[q].stage.Starting?)
  {
    hide Inv, Reachable, Settle, RunsNext;
    ReachableInv(w);
    SoundAlways(w, DoSettle(r, result, ahead));
    SlotOf(w, w.states[r].key);
    SettlesHere(w, r, result, ahead);
    NextHere(w, r, result, ahead);
    var q := SlotAt(w, r).queued.value.state;
    forall e
      ensures (q, e) !in w.decided
    {
      Undecided(w, q, e);
    }
  }

  lemma NextHere(w: World, r: RunId, result: Option<Outcome>, ahead: Ahead)
    requires Enabled(w, DoSettle(r, result, ahead)) && IsRunning(w, r)
    requires Sound(w, DoSettle(r, result, ahead)) && SlotOk(w, w.states[r].key)
    ensures var v, key, slot := Settle(w, r, result, ahead), w.states[r].key, SlotAt(w, r);
      if slot.queued.None? then v.slots == w.slots - {key}
      else
        && v.slots == (if Begins(w, r, result, ahead) then w.slots[key := Slot(slot.queued.value.state, None, None)] else w.slots - {key})
        && v.states[slot.queued.value.state].stage == if Begins(w, r, result, ahead) then Starting else Discarded
  {
  }

  /** With none queued the instance is free. */
  lemma NoneIsNext(w: World, r: RunId, result: Option<Outcome>, ahead: Ahead)
    requires Reachable(w) && Enabled(w, DoSettle(r, result, ahead)) && IsRunning(w, r) && SlotAt(w, r).queued.None?
    ensures Step(w, DoSettle(r, result, ahead)).slots == w.slots - {w.states[r].key}
  {
    hide Inv, Reachable, Settle, RunsNext;
    ReachableInv(w);
    SoundAlways(w, DoSettle(r, result, ahead));
    SlotOf(w, w.states[r].key);
    NextHere(w, r, result, ahead);
  }

  /** A run that was replaced settles: its callers are to be told Dropped, if they have
      not been forwarded by then; nothing is stored, and no slot changes. */
  lemma ReplacedSettles(w: World, r: RunId, result: Option<Outcome>, ahead: Ahead)
    requires Reachable(w) && Enabled(w, DoSettle(r, result, ahead)) && !IsRunning(w, r)
    ensures var v := Step(w, DoSettle(r, result, ahead));
      v.slots == w.slots && v.stores == w.stores && v.decided == w.decided + {(r, Done(Dropped))}
  {
    hide Inv, Reachable;
    ReachableInv(w);
    SoundAlways(w, DoSettle(r, result, ahead));
  }

  /** A settling tells no other run's callers anything, and changes no wait. */
  lemma OthersAreNotTold(w: World, r: RunId, result: Option<Outcome>, ahead: Ahead, s: RunId)
    requires Reachable(w) && Enabled(w, DoSettle(r, result, ahead)) && s != r && !IsQueued(w, s) && s < |w.states|
    ensures var v := Step(w, DoSettle(r, result, ahead));
      && (forall e :: (s, e) in v.decided <==> (s, e) in w.decided)
      && s < |v.states| && v.states[s] == w.states[s] && v.waits == w.waits && v.blocked == w.blocked
  {
    hide Inv, Reachable, EndOf, Conclude;
    ReachableInv(w);
    SoundAlways(w, DoSettle(r, result, ahead));
    var key := w.states[r].key;
    ConcludeElse(w, r, Done(Dropped), s);
    if key in w.slots {
      SlotOf(w, key);
      ConcludeElse(w, r, EndOf(w.slots[key], result), s);
    }
  }

  lemma ConcludeElse(w: World, r: RunId, end: End, s: RunId)
    requires r < |w.states| && s < |w.states| && s != r
    ensures var v := Conclude(w, r, end);
      && |v.states| == |w.states| && v.states[s] == w.states[s] && v.waits == w.waits && v.blocked == w.blocked
      && forall e :: (s, e) in v.decided <==> (s, e) in w.decided
  {
  }

  // ---- What they are told in the end ------------------------------------

  /** Run `r` is over, and `end` is the one end it can come to. */
  ghost predicate Sealed(w: World, r: RunId, end: End) {
    && r < |w.states| && w.states[r].stage.Settled? && !w.states[r].replaced
    && (w.states[r].stored <==> end == Done(Stored))
    && (forall e :: (r, e) in w.decided ==> e == end)
    && (w.states[r].end.Some? ==> w.states[r].end == Some(end))
  }

  lemma SettledIsAway(w: World, r: RunId)
    requires Inv(w) && r < |w.states| && w.states[r].stage.Settled?
    ensures !IsRunning(w, r) && !IsQueued(w, r)
  {
    hide Inv;
    if w.states[r].key in w.slots {
      SlotOf(w, w.states[r].key);
    }
  }

  /** Run `r` is not one of the slot's. */
  predicate Apart(w: World, key: Key, r: RunId) {
    && key in w.slots && SlotOk(w, key) && w.slots[key].running != r
    && (w.slots[key].queued.Some? ==> w.slots[key].queued.value.state != r)
  }

  lemma ApartAt(w: World, key: Key, r: RunId)
    requires Inv(w) && key in w.slots && r < |w.states| && w.states[r].stage.Settled?
    ensures Apart(w, key, r)
  {
    hide Inv;
    SlotOf(w, key);
  }

  lemma QueueSeals(w: World, key: Key, epoch: nat, forced: bool, r: RunId, end: End)
    requires Apart(w, key, r) && Sealed(w, r, end)
    ensures var u := Queue(w, key, epoch, forced); Sealed(u, r, end) && Apart(u, key, r)
  {
  }

  lemma ReplaceSeals(w: World, key: Key, r: RunId, end: End)
    requires Apart(w, key, r) && w.slots[key].queued.Some? && Sealed(w, r, end)
    ensures Sealed(Replace(w, key), r, end)
  {
  }

  lemma AskSeals(w: World, me: Caller, key: Key, state: RunId, r: RunId, end: End)
    requires Sealed(w, r, end)
    ensures Sealed(Ask(w, me, key, state).0, r, end)
  {
  }

  lemma NewSlotSeals(w: World, key: Key, r: RunId, end: End)
    requires Sealed(w, r, end)
    ensures Sealed(NewSlot(w, key), r, end)
  {
  }

  lemma StartSeals(w: World, a: Action, r: RunId, end: End)
    requires Inv(w) && Enabled(w, a) && Sound(w, a) && a.DoStart? && Sealed(w, r, end)
    ensures Sealed(Start(w, a.caller, a.want, a.key, a.epoch, a.found).0, r, end)
  {
    hide Inv, Ask, Queue, Replace, Sealed, NewSlot, Apart;
    var DoStart(me, want, key, e, found) := a;
    if key in w.slots {
      assert Apart(w, key, r) by { SealedApart(w, key, r, end); }
      AskSeals(w, me, key, w.slots[key].running, r, end);
      QueueSeals(w, key, e, false, r, end);
      var t := Queue(w, key, e, false);
      ReplaceSeals(t, key, r, end);
      assert key in Replace(t, key).slots by { ReplaceHas(t, key); }
      AskSeals(Replace(t, key), me, key, Replace(t, key).slots[key].running, r, end);
      QueueSeals(w, key, e, want.Forced?, r, end);
      var u := Queue(w, key, e, want.Forced?);
      AskSeals(u, me, key, u.slots[key].queued.value.state, r, end);
    } else {
      NewSlotSeals(w, key, r, end);
      AskSeals(NewSlot(w, key), me, key, |w.states|, r, end);
    }
  }

  lemma ReplaceHas(w: World, key: Key)
    requires key in w.slots && SlotOk(w, key) && w.slots[key].queued.Some?
    ensures key in Replace(w, key).slots
  {
  }

  lemma SealedApart(w: World, key: Key, r: RunId, end: End)
    requires Inv(w) && key in w.slots && Sealed(w, r, end)
    ensures Apart(w, key, r)
  {
    ApartAt(w, key, r);
  }

  lemma MarkSeals(w: World, key: Key, mark: Overtaken, r: RunId, end: End)
    requires Apart(w, key, r) && Sealed(w, r, end)
    ensures Sealed(Mark(w, key, mark), r, end)
  {
  }

  lemma SupersedeSeals(w: World, key: Key, how: Overtake, e: nat, r: RunId, end: End)
    requires Inv(w) && (key in w.slots ==> SlotIds(w, key)) && Sealed(w, r, end)
    ensures Sealed(Supersede(w, key, how, e), r, end)
  {
    hide Inv, Sealed, Mark, Queue, Apart;
    if key in w.slots {
      SealedApart(w, key, r, end);
      QueueSeals(w, key, e, false, r, end);
      var u := Queue(w, key, e, false);
      assert SlotIds(u, key) by { ApartIds(u, key, r); }
      MarkSeals(u, key, OvertakenAgain, r, end);
      MarkSeals(w, key, OvertakenGone(e), r, end);
    }
  }

  lemma ApartIds(w: World, key: Key, r: RunId)
    requires Apart(w, key, r)
    ensures SlotIds(w, key)
  {
  }

  lemma SettleSeals(w: World, s: RunId, result: Option<Outcome>, ahead: Ahead, r: RunId, end: End)
    requires MaySettle(w, s) && Sealed(w, r, end) && !IsQueued(w, r)
    ensures Sealed(Settle(w, s, result, ahead), r, end)
  {
    hide EndOf, RunsNext;
    var key := w.states[s].key;
    if key !in w.slots || w.slots[key].running != s {
      ConcludeSeals(w, s, Done(Dropped), r, end);
    } else {
      var told := EndOf(w.slots[key], result);
      ConcludeSeals(w, s, told, r, end);
      BehindSeals(w, s, told, r, end);
      assert RunsNext(w.slots[key], result, ahead) ==> w.slots[key].queued.Some? by { NextIsQueued(w.slots[key], result, ahead); }
    }
  }

  lemma NextIsQueued(slot: Slot, result: Option<Outcome>, ahead: Ahead)
    ensures RunsNext(slot, result, ahead) ==> slot.queued.Some?
  {
  }

  lemma ConcludeSeals(w: World, s: RunId, told: End, r: RunId, end: End)
    requires s < |w.states| && w.states[s].stage.Live? && Sealed(w, r, end)
    ensures Sealed(Conclude(w, s, told), r, end)
  {
  }

  lemma BehindSeals(w: World, s: RunId, told: End, r: RunId, end: End)
    requires MaySettleHere(w, s) && Sealed(Conclude(w, s, told), r, end) && !IsQueued(w, r) && w.states[r].stage.Settled?
    ensures w.slots[w.states[s].key].queued.Some? ==> Sealed(SettleNext(w, s, told), r, end)
    ensures Sealed(SettleLast(w, s, told), r, end)
  {
    hide Conclude;
    ConcludeStates(w, s, told);
  }

  lemma ConcludeStates(w: World, s: RunId, told: End)
    requires s < |w.states|
    ensures |Conclude(w, s, told).states| == |w.states|
    ensures forall q | 0 <= q < |w.states| && q != s :: Conclude(w, s, told).states[q] == w.states[q]
  {
  }

  lemma OutsideSeals(w: World, a: Action, r: RunId, end: End)
    requires Enabled(w, a) && Sound(w, a) && Sealed(w, r, end)
    requires a.DoLaunch? || a.DoFinish? || a.DoFollow? || a.DoReturn?
    ensures Sealed(Step(w, a), r, end)
  {
  }

  lemma SealStep(w: World, a: Action, r: RunId, end: End)
    requires Inv(w) && Enabled(w, a) && Sealed(w, r, end)
    ensures Sealed(Step(w, a), r, end)
  {
    hide Inv, Start, Supersede, Settle, Launch, Finish, Follow, Return, MaySettle, IsQueued, IsRunning;
    SoundAlways(w, a);
    match a
    case DoStart(me, want, key, epoch, found) => StartSeals(w, a, r, end);
    case DoSupersede(key, how, epoch) => SupersedeSeals(w, key, how, epoch, r, end);
    case DoSettle(s, result, ahead) =>
      LiveMaySettle(w, s);
      SettledIsAway(w, r);
      SettleSeals(w, s, result, ahead, r, end);
    case _ => OutsideSeals(w, a, r, end);
  }

  /** Whoever waits for a run in flight when it settles is told the one thing, whatever
      comes after. */
  lemma {:induction false} SealHolds(w: World, trace: seq<Action>, v: World, r: RunId, end: End)
    requires Inv(w) && Leads(w, trace, v) && Sealed(w, r, end)
    ensures Sealed(v, r, end)
    decreases |trace|
  {
    hide Inv, Step, Enabled, Sealed;
    if trace != [] {
      StepKeeps(w, trace[0]);
      SealStep(w, trace[0], r, end);
      SealHolds(Step(w, trace[0]), trace[1..], v, r, end);
    }
  }

  /** However it goes on, the callers of a run that was in flight when it settled are told
      what was decided for it then, if they are told anything, and it is among the stored
      runs if and only if no reload overtook it and its outcome was Stored. */
  lemma CallersAreTold(w: World, r: RunId, result: Option<Outcome>, ahead: Ahead, trace: seq<Action>, v: World)
    requires Reachable(w) && Enabled(w, DoSettle(r, result, ahead)) && IsRunning(w, r)
    requires Leads(Step(w, DoSettle(r, result, ahead)), trace, v)
    ensures r < |v.states| && (v.states[r].end.Some? ==> v.states[r].end == Some(Told(w, r, result)))
    ensures r in v.stores <==> !w.states[r].overtook && result == Some(Stored)
  {
    hide Inv, Reachable, Leads, Step, Enabled, Told;
    var u := Step(w, DoSettle(r, result, ahead));
    ReachableInv(w);
    InFlightSettles(w, r, result, ahead);
    StepKeeps(w, DoSettle(r, result, ahead));
    NotReplaced(w, r, result, ahead);
    SealHolds(u, trace, v, r, Told(w, r, result));
    ReachableOn(w, DoSettle(r, result, ahead), trace, v);
    ReachableInv(v);
    StoredIsListed(v, r);
    ToldStored(w, r, result);
  }

  lemma ToldStored(w: World, r: RunId, result: Option<Outcome>)
    requires IsRunning(w, r)
    ensures Told(w, r, result) == Done(Stored) <==> !w.states[r].overtook && result == Some(Stored)
  {
  }

  lemma StoredIsListed(w: World, r: RunId)
    requires Inv(w) && r < |w.states|
    ensures r in w.stores <==> w.states[r].stored
  {
    StoresOf(w);
    hide Inv;
  }

  lemma NotReplaced(w: World, r: RunId, result: Option<Outcome>, ahead: Ahead)
    requires Inv(w) && Enabled(w, DoSettle(r, result, ahead)) && IsRunning(w, r)
    ensures var v := Step(w, DoSettle(r, result, ahead));
      r < |v.states| && !v.states[r].replaced && (v.states[r].stored <==> Told(w, r, result) == Done(Stored))
  {
    hide Inv;
    SoundAlways(w, DoSettle(r, result, ahead));
    SlotOf(w, w.states[r].key);
  }

  // ---- A reload ---------------------------------------------------------

  /** A reload overtakes the run in flight: it stays in flight, marked, and no run but that
      of its own instance is touched. Again queues a run behind it, made now if there is
      none, under the newer registry; Gone queues none. */
  lemma OvertakenRun(w: World, key: Key, how: Overtake, epoch: nat)
    requires Reachable(w) && Enabled(w, DoSupersede(key, how, epoch)) && key in w.slots
    ensures var v, slot := Step(w, DoSupersede(key, how, epoch)), w.slots[key];
      && v.slots.Keys == w.slots.Keys && (forall k | k in w.slots && k != key :: v.slots[k] == w.slots[k])
      && v.slots[key].running == slot.running
      && v.slots[key].overtaken == Some(if how.Again? then OvertakenAgain else OvertakenGone(epoch))
      && slot.running < |w.states| <= |v.states| && v.states[slot.running].overtook && v.states[slot.running].stage == w.states[slot.running].stage
      && (forall s | 0 <= s < |w.states| && s != slot.running :: v.states[s] == w.states[s])
      && v.decided == w.decided && v.stores == w.stores && v.waits == w.waits && v.blocked == w.blocked
      && (how.Gone? ==> v.slots[key].queued == slot.queued && |v.states| == |w.states|)
      && (how.Again? ==> HandsBehind(w, key, epoch, false, v))
  {
    hide Inv, Reachable;
    ReachableInv(w);
    SoundAlways(w, DoSupersede(key, how, epoch));
    SlotOf(w, key);
  }

  /** A run stands behind the one in flight: the one that stood there, or one made now. It
      is forced if it was or is asked to be, and under the newest registry. */
  predicate HandsBehind(w: World, key: Key, epoch: nat, forced: bool, v: World)
    requires key in w.slots
  {
    && key in v.slots && v.slots[key].queued.Some?
    && var q := v.slots[key].queued.value;
       match w.slots[key].queued
       case None =>
         && q == Queued(|w.states|, forced, epoch) && |v.states| == |w.states| + 1
         && v.states[q.state] == NewState(key, Behind)
       case Some(was) => q == Queued(was.state, was.forced || forced, Max(epoch, was.epoch)) && |v.states| == |w.states|
  }

  /** Run `r` is in flight with the mark on it, and `queued`, if given, behind it. */
  predicate Marked(w: World, key: Key, r: RunId, mark: Overtaken, queued: Option<RunId>) {
    && key in w.slots && w.slots[key].running == r && w.slots[key].overtaken == Some(mark)
    && (queued.Some? ==> w.slots[key].queued.Some? && w.slots[key].queued.value.state == queued.value)
  }

  lemma QueueMarked(w: World, k: Key, epoch: nat, forced: bool, key: Key, r: RunId, mark: Overtaken, queued: Option<RunId>)
    requires k in w.slots && Marked(w, key, r, mark, queued)
    ensures Marked(Queue(w, k, epoch, forced), key, r, mark, queued)
  {
  }

  lemma ReplaceMarked(w: World, k: Key, key: Key, r: RunId, mark: Overtaken, queued: Option<RunId>)
    requires k in w.slots && SlotIds(w, k) && w.slots[k].queued.Some? && k != key && Marked(w, key, r, mark, queued)
    ensures Marked(Replace(w, k), key, r, mark, queued)
  {
  }

  lemma AskMarked(w: World, me: Caller, k: Key, state: RunId, key: Key, r: RunId, mark: Overtaken, queued: Option<RunId>)
    requires Marked(w, key, r, mark, queued)
    ensures Marked(Ask(w, me, k, state).0, key, r, mark, queued)
  {
  }

  lemma QueueIds(w: World, k: Key, epoch: nat, forced: bool)
    requires k in w.slots && SlotIds(w, k)
    ensures SlotIds(Queue(w, k, epoch, forced), k)
  {
  }

  lemma StartMarked(w: World, a: Action, key: Key, r: RunId, mark: Overtaken, queued: Option<RunId>)
    requires Enabled(w, a) && a.DoStart? && Sound(w, a) && Marked(w, key, r, mark, queued)
    ensures Marked(Start(w, a.caller, a.want, a.key, a.epoch, a.found).0, key, r, mark, queued)
  {
    hide Ask, Queue, Replace, Enabled, SlotIds, NoRing;
    var DoStart(me, want, k, e, found) := a;
    if k in w.slots {
      assert k == key ==> w.slots[k].overtaken.Some?;
      AskMarked(w, me, k, w.slots[k].running, key, r, mark, queued);
      QueueMarked(w, k, e, want.Forced?, key, r, mark, queued);
      var u := Queue(w, k, e, want.Forced?);
      AskMarked(u, me, k, u.slots[k].queued.value.state, key, r, mark, queued);
      if k != key {
        QueueMarked(w, k, e, false, key, r, mark, queued);
        QueueIds(w, k, e, false);
        var t := Queue(w, k, e, false);
        ReplaceMarked(t, k, key, r, mark, queued);
        assert k in Replace(t, k).slots by { ReplaceIn(t, k); }
        AskMarked(Replace(t, k), me, k, Replace(t, k).slots[k].running, key, r, mark, queued);
      }
    } else {
      AskMarked(NewSlot(w, k), me, k, |w.states|, key, r, mark, queued);
    }
  }

  lemma ReplaceIn(w: World, k: Key)
    requires k in w.slots && SlotIds(w, k) && w.slots[k].queued.Some?
    ensures k in Replace(w, k).slots
  {
  }

  lemma SupersedeMarked(w: World, k: Key, how: Overtake, e: nat, key: Key, r: RunId, mark: Overtaken, queued: Option<RunId>)
    requires (k in w.slots ==> SlotIds(w, k)) && k != key && Marked(w, key, r, mark, queued)
    ensures Marked(Supersede(w, k, how, e), key, r, mark, queued)
  {
  }

  lemma SettleMarked(w: World, s: RunId, result: Option<Outcome>, ahead: Ahead, key: Key, r: RunId, mark: Overtaken, queued: Option<RunId>)
    requires Sound(w, DoSettle(s, result, ahead)) && s != r && Marked(w, key, r, mark, queued)
    ensures Marked(Settle(w, s, result, ahead), key, r, mark, queued)
  {
  }

  /** Until it settles, or another reload overtakes it, what a reload made of it stands. */
  lemma MarkStep(w: World, a: Action, key: Key, r: RunId, mark: Overtaken, queued: Option<RunId>)
    requires Inv(w) && Enabled(w, a) && Marked(w, key, r, mark, queued)
    requires !(a.DoSupersede? && a.key == key) && !(a.DoSettle? && a.run == r)
    ensures Marked(Step(w, a), key, r, mark, queued)
  {
    hide Inv, Start, Supersede, Settle;
    SoundAlways(w, a);
    match a
    case DoStart(me, want, k, epoch, found) => StartMarked(w, a, key, r, mark, queued);
    case DoSupersede(k, how, epoch) => SupersedeMarked(w, k, how, epoch, key, r, mark, queued);
    case DoSettle(s, result, ahead) => SettleMarked(w, s, result, ahead, key, r, mark, queued);
    case _ =>
  }

  /** The trace neither settles run `r` nor overtakes its instance again. */
  ghost predicate LeavesAlone(trace: seq<Action>, key: Key, r: RunId) {
    forall a | a in trace :: !(a.DoSupersede? && a.key == key) && !(a.DoSettle? && a.run == r)
  }

  lemma {:induction false} MarkHolds(w: World, trace: seq<Action>, v: World, key: Key, r: RunId, mark: Overtaken, queued: Option<RunId>)
    requires Inv(w) && Leads(w, trace, v) && LeavesAlone(trace, key, r) && Marked(w, key, r, mark, queued)
    ensures Inv(v) && Marked(v, key, r, mark, queued)
    decreases |trace|
  {
    hide Inv, Step, Enabled, Marked;
    if trace != [] {
      assert trace[0] in trace;
      StepKeeps(w, trace[0]);
      MarkStep(w, trace[0], key, r, mark, queued);
      MarkHolds(Step(w, trace[0]), trace[1..], v, key, r, mark, queued);
    }
  }

  /** What becomes of a run in flight that a reload overtakes, whatever comes before its
      task settles and after, and whatever result it had: it stores nothing, and whoever
      waits for it is told Dropped, if the reload did away with its Source, and else goes
      to the run that the reload put behind it. */
  lemma OvertakenIsTold(w: World, key: Key, how: Overtake, epoch: nat, before: seq<Action>, u: World,
                        result: Option<Outcome>, ahead: Ahead, later: seq<Action>, v: World)
    requires Reachable(w) && Enabled(w, DoSupersede(key, how, epoch)) && key in w.slots
    requires Leads(Step(w, DoSupersede(key, how, epoch)), before, u) && LeavesAlone(before, key, w.slots[key].running)
    requires Enabled(u, DoSettle(w.slots[key].running, result, ahead))
    requires Leads(Step(u, DoSettle(w.slots[key].running, result, ahead)), later, v)
    ensures var r, slots := w.slots[key].running, Step(w, DoSupersede(key, how, epoch)).slots;
      && r !in v.stores
      && key in slots && r < |v.states|
      && (v.states[r].end.Some? ==>
            if how.Gone? then v.states[r].end == Some(Done(Dropped))
            else slots[key].queued.Some? && v.states[r].end == Some(Moved(slots[key].queued.value.state)))
  {
    hide Inv, Reachable, Leads, Step, Enabled, Told;
    var r, w1 := w.slots[key].running, Step(w, DoSupersede(key, how, epoch));
    var mark := if how.Again? then OvertakenAgain else OvertakenGone(epoch);
    ReachableInv(w);
    OvertakenRun(w, key, how, epoch);
    StepKeeps(w, DoSupersede(key, how, epoch));
    var queued := if how.Again? then Some(w1.slots[key].queued.value.state) else None;
    MarkHolds(w1, before, u, key, r, mark, queued);
    ReachableOn(w, DoSupersede(key, how, epoch), before, u);
    MarkedIsTold(u, key, r, mark, queued, result);
    CallersAreTold(u, r, result, ahead, later, v);
  }

  lemma ReachableOn(w: World, a: Action, trace: seq<Action>, v: World)
    requires Reachable(w) && Enabled(w, a) && Leads(Step(w, a), trace, v)
    ensures Reachable(v)
  {
    hide Step, Enabled, Leads;
    ReachableStep(w, a);
    var before :| Leads(INIT, before, Step(w, a));
    LeadsJoin(INIT, before, Step(w, a), trace, v);
  }

  lemma MarkedIsTold(w: World, key: Key, r: RunId, mark: Overtaken, queued: Option<RunId>, result: Option<Outcome>)
    requires Inv(w) && Marked(w, key, r, mark, queued)
    ensures IsRunning(w, r) && w.states[r].overtook
    ensures mark.OvertakenGone? ==> Told(w, r, result) == Done(Dropped)
    ensures mark.OvertakenAgain? && queued.Some? ==> Told(w, r, result) == Moved(queued.value)
  {
    hide Inv;
    SlotOf(w, key);
  }

  /** A reload of an instance with no run in flight changes nothing here. */
  lemma NothingToOvertake(w: World, key: Key, how: Overtake, epoch: nat)
    requires Reachable(w) && Enabled(w, DoSupersede(key, how, epoch)) && key !in w.slots
    ensures Step(w, DoSupersede(key, how, epoch)) == w
  {
    hide Inv, Reachable;
    ReachableInv(w);
    SoundAlways(w, DoSupersede(key, how, epoch));
  }

  // ---- Which run a caller is handed -------------------------------------

  /** The caller is refused: a read that found an input changed, of an instance whose
      Source is gone; or, with no run in flight, a cold read of a record that is there, one
      that is not forced of an instance held back, or any of an instance whose Source is
      gone. */
  predicate Refused(w: World, want: Want, key: Key, found: Found) {
    if key in w.slots then
      && want.Changed? && !found.sees && !found.backoff && !found.known && w.slots[key].overtaken.None?
    else
      (want.Cold? && found.recorded) || (!want.Forced? && found.backoff) || !found.known
  }

  /** The run in flight is what the caller wants. */
  predicate Satisfies(w: World, want: Want, key: Key, found: Found) {
    && key in w.slots && w.slots[key].overtaken.None?
    && (want.Cold? || want.Any? || (want.Changed? && found.sees))
  }

  /** The caller may have another in its place. */
  predicate MayTakeOver(w: World, want: Want, key: Key, found: Found) {
    && key in w.slots && w.slots[key].overtaken.None?
    && want.Changed? && !found.sees && !found.backoff && found.known
  }

  /** The queued run, or one made for it, takes the place of the one in flight, whose
      callers are to go to it. */
  predicate TakesOver(w: World, key: Key, v: World, handed: RunId)
    requires key in w.slots
  {
    var slot := w.slots[key];
    && v.slots == w.slots[key := Slot(handed, None, None)]
    && (if slot.queued.Some? then handed == slot.queued.value.state && |v.states| == |w.states|
        else handed == |w.states| && |v.states| == |w.states| + 1)
    && slot.running < |w.states| && v.states[slot.running] == w.states[slot.running].(replaced := true)
    && handed < |v.states| && v.states[handed].key == key && v.states[handed].stage.Starting?
    && (forall s | 0 <= s < |w.states| && s != slot.running && s != handed :: v.states[s] == w.states[s])
    && v.decided == w.decided + {(slot.running, Moved(handed))}
  }

  /** The run a caller is handed, and what becomes of the others: a run of an instance
      that had none, about to begin; the one in flight, untouched, where that is what the
      caller wants; the run that takes its place; and else the run behind it, which no
      caller of the one in flight is moved to. */
  predicate HandedRight(w: World, want: Want, key: Key, epoch: nat, found: Found, v: World, handed: RunId) {
    if key !in w.slots then
      && handed == |w.states| && v.slots == w.slots[key := Slot(handed, None, None)]
      && v.states == w.states + [NewState(key, Starting)] && v.decided == w.decided
    else if Satisfies(w, want, key, found) then
      handed == w.slots[key].running && v.slots == w.slots && v.states == w.states && v.decided == w.decided
    else if MayTakeOver(w, want, key, found) then TakesOver(w, key, v, handed)
    else
      && HandsBehind(w, key, epoch, want.Forced?, v) && handed == v.slots[key].queued.value.state
      && v.slots == w.slots[key := w.slots[key].(queued := v.slots[key].queued)] && w.states <= v.states
      && v.decided == w.decided
  }

  lemma HandsBehindIs(w: World, key: Key, epoch: nat, forced: bool)
    requires key in w.slots
    ensures var u := Queue(w, key, epoch, forced);
      && HandsBehind(w, key, epoch, forced, u) && u.decided == w.decided && u.stores == w.stores
      && u.slots == w.slots[key := w.slots[key].(queued := u.slots[key].queued)] && w.states <= u.states
  {
  }

  lemma ReplaceIs(u: World, key: Key)
    requires key in u.slots && SlotIds(u, key) && u.slots[key].queued.Some?
    ensures var v, r, q := Replace(u, key), u.slots[key].running, u.slots[key].queued.value.state;
      && v.slots == u.slots[key := u.slots[key].(running := q, queued := None)]
      && |v.states| == |u.states| && v.states[q].stage.Starting? && v.states[q].key == u.states[q].key
      && (r != q ==> v.states[r] == u.states[r].(replaced := true))
      && (forall s | 0 <= s < |u.states| && s != r && s != q :: v.states[s] == u.states[s])
      && v.decided == u.decided + {(r, Moved(q))} && v.stores == u.stores
  {
  }

  lemma QueueRun(w: World, key: Key, epoch: nat)
    requires key in w.slots && SlotOk(w, key)
    ensures var u, r := Queue(w, key, epoch, false), w.slots[key].running;
      && SlotIds(u, key) && u.slots == w.slots[key := u.slots[key]] && r != u.slots[key].queued.value.state
      && u.states[r] == w.states[r] && u.states[u.slots[key].queued.value.state].key == key
  {
  }

  lemma TakesOverIs(w: World, key: Key, epoch: nat)
    requires key in w.slots && SlotOk(w, key) && w.slots[key].overtaken.None?
    ensures var u := Queue(w, key, epoch, false);
      && SlotIds(u, key)
      && var v := Replace(u, key);
         key in v.slots && TakesOver(w, key, v, v.slots[key].running) && v.stores == w.stores
  {
    hide Queue, Replace;
    HandsBehindIs(w, key, epoch, false);
    QueueRun(w, key, epoch);
    ReplaceIs(Queue(w, key, epoch, false), key);
  }

  /** The caller of `start` is refused exactly where it should be, and nothing has changed
      then; and else it is handed a run of the instance as it should be. */
  lemma WhatIsHanded(w: World, me: Caller, want: Want, key: Key, epoch: nat, found: Found)
    requires Reachable(w) && Enabled(w, DoStart(me, want, key, epoch, found))
    ensures Sound(w, DoStart(me, want, key, epoch, found))
    ensures var (v, run) := Start(w, me, want, key, epoch, found);
      && v == Step(w, DoStart(me, want, key, epoch, found)) && v.stores == w.stores
      && (run.None? <==> Refused(w, want, key, found)) && (run.None? ==> v == w)
      && (run.Some? ==> run.value.key == key && HandedRight(w, want, key, epoch, found, v, run.value.state))
  {
    hide Inv, Reachable, Ask, Queue, Replace, TakesOver, HandsBehind;
    ReachableInv(w);
    SoundAlways(w, DoStart(me, want, key, epoch, found));
    if key in w.slots {
      SlotOf(w, key);
      AskHands(w, me, key, w.slots[key].running);
      HandsBehindIs(w, key, epoch, want.Forced?);
      var u := Queue(w, key, epoch, want.Forced?);
      AskHands(u, me, key, u.slots[key].queued.value.state);
      HandsSame(u, Ask(u, me, key, u.slots[key].queued.value.state).0, w, key, epoch, want.Forced?);
      if w.slots[key].overtaken.None? {
        TakesOverIs(w, key, epoch);
        var t := Replace(Queue(w, key, epoch, false), key);
        AskHands(t, me, key, t.slots[key].running);
        TakesSame(t, Ask(t, me, key, t.slots[key].running).0, w, key);
      }
    } else {
      AskHands(NewSlot(w, key), me, key, |w.states|);
    }
  }

  lemma HandsSame(u: World, v: World, w: World, key: Key, epoch: nat, forced: bool)
    requires key in w.slots && HandsBehind(w, key, epoch, forced, u) && v.slots == u.slots && v.states == u.states
    ensures HandsBehind(w, key, epoch, forced, v)
  {
  }

  lemma TakesSame(u: World, v: World, w: World, key: Key)
    requires key in w.slots && key in u.slots && TakesOver(w, key, u, u.slots[key].running)
    requires v.slots == u.slots && v.states == u.states && v.decided == u.decided
    ensures TakesOver(w, key, v, u.slots[key].running)
  {
  }

  /** A task waits on nothing; the thread of a run waits on what it was handed, unless that
      would close a ring: the run in flight of that instance waits, however far round, on
      it. No other wait changes. */
  ghost predicate WaitsRight(w: World, me: Caller, key: Key, v: World, run: Run) {
    && key in v.slots
    && (run.asked.Outside? <==> me.None?)
    && (run.asked.Ring? <==> me.Some? && Reaches(Edges(v.slots, w.waits), v.slots[key].running, me.value))
    && (if run.asked.By? then
          && me == Some(run.asked.run)
          && v.waits == w.waits[run.asked.run := key] && v.blocked == w.blocked[run.asked.run := run.state]
        else v.waits == w.waits && v.blocked == w.blocked)
  }

  lemma WhoWaits(w: World, me: Caller, want: Want, key: Key, epoch: nat, found: Found)
    requires Reachable(w) && Enabled(w, DoStart(me, want, key, epoch, found)) && !Refused(w, want, key, found)
    ensures Sound(w, DoStart(me, want, key, epoch, found))
    ensures var (v, run) := Start(w, me, want, key, epoch, found); run.Some? && WaitsRight(w, me, key, v, run.value)
  {
    hide Inv, Reachable, Queue, Replace, Ask, WaitsRight;
    ReachableInv(w);
    SoundAlways(w, DoStart(me, want, key, epoch, found));
    if key in w.slots {
      SlotOf(w, key);
      AskWaitsOn(w, w, me, key, w.slots[key].running);
      QueueWaits(w, key, epoch, want.Forced?);
      var u := Queue(w, key, epoch, want.Forced?);
      AskWaitsOn(w, u, me, key, u.slots[key].queued.value.state);
      if w.slots[key].overtaken.None? {
        TakeOverWaits(w, key, epoch);
        var t := Replace(Queue(w, key, epoch, false), key);
        AskWaitsOn(w, t, me, key, t.slots[key].running);
      }
    } else {
      AskWaitsOn(w, NewSlot(w, key), me, key, |w.states|);
    }
  }

  lemma AskWaitsOn(w: World, u: World, me: Caller, key: Key, state: RunId)
    requires key in u.slots && u.waits == w.waits && u.blocked == w.blocked
    ensures WaitsRight(w, me, key, Ask(u, me, key, state).0, Ask(u, me, key, state).1)
  {
    hide Reaches, Edges;
  }

  lemma QueueWaits(w: World, key: Key, epoch: nat, forced: bool)
    requires key in w.slots
    ensures var u := Queue(w, key, epoch, forced); u.waits == w.waits && u.blocked == w.blocked
  {
  }

  lemma TakeOverWaits(w: World, key: Key, epoch: nat)
    requires key in w.slots && SlotOk(w, key) && w.slots[key].overtaken.None?
    ensures var u := Queue(w, key, epoch, false);
      SlotIds(u, key) && key in Replace(u, key).slots && Replace(u, key).waits == w.waits && Replace(u, key).blocked == w.blocked
  {
  }
}
