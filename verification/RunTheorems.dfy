/** What the run coordinator promises, in every state it can reach and over every
    run of it. */
module RunTheorems {
  import opened Prelude
  import opened WaitGraph
  import opened RunTable
  import opened RunInvariant

  // ---- Nothing waits for ever -------------------------------------------

  /** In every reachable state no set of runs waits on itself. */
  lemma NoRingOfWaits(w: World)
    requires Reachable(w)
    ensures Acyclic(Edges(w.slots, w.waits))
  {
    hide Reachable;
    ReachableInv(w);
    hide SlotsOk, StatesOk, Accounted, DecidedOk, StoresOk, WaitsOk;
  }

  /** Run `b` is no obstacle: its thread is not waiting, and it is in flight (or
      about to be), or what it waits on has ended or is about to be told so. */
  ghost predicate CanGoOn(w: World, b: RunId) {
    if b in w.waits then
      b in w.blocked && w.blocked[b] < |w.states| && (EndAt(w, w.blocked[b]).Some? || IsDecided(w, w.blocked[b]))
    else
      b < |w.states| && (w.states[b].stage.Starting? || w.states[b].stage.Live?)
  }

  lemma WaiterGoesOn(w: World, b: RunId)
    requires Inv(w) && b in w.waits && w.waits[b] !in w.slots
    ensures CanGoOn(w, b)
  {
    hide Inv;
    WaitOf(w, b);
    StateOf(w, w.blocked[b]);
  }

  lemma RunningGoesOn(w: World, k: Key)
    requires Inv(w) && k in w.slots && w.slots[k].running !in w.waits
    ensures CanGoOn(w, w.slots[k].running)
  {
    hide Inv;
    SlotOf(w, k);
  }

  lemma SinkGoesOn(w: World, q: seq<nat>)
    requires Inv(w) && Path(Edges(w.slots, w.waits), q) && q[0] in w.waits
    requires q[|q| - 1] !in Edges(w.slots, w.waits)
    ensures CanGoOn(w, q[|q| - 1])
  {
    hide Inv, CanGoOn;
    var b := q[|q| - 1];
    if b in w.waits {
      WaiterGoesOn(w, b);
    } else {
      var a := q[|q| - 2];
      assert a in w.waits && w.waits[a] in w.slots && w.slots[w.waits[a]].running == b;
      RunningGoesOn(w, w.waits[a]);
    }
  }

  /** Follow the waits from any run that waits: within as many hops as there are
      waits they come to a run that can go on. */
  lemma EveryWaitComesToAnEnd(w: World, me: RunId) returns (q: seq<nat>)
    requires Reachable(w) && me in w.waits
    ensures Path(Edges(w.slots, w.waits), q) && q[0] == me
    ensures |q| - 1 <= |w.waits|
    ensures CanGoOn(w, q[|q| - 1])
  {
    hide Inv, Acyclic, CanGoOn, Reachable;
    ReachableInv(w);
    NoRingOfWaits(w);
    assert Path(Edges(w.slots, w.waits), [me]);
    q := SinkFrom(Edges(w.slots, w.waits), [me]);
    SinkGoesOn(w, q);
  }

  /** Nothing is left for the coordinator to do by itself: no chosen run to
      launch, no end to write, no waiting thread to wake, and no run at work
      whose thread is free. */
  ghost predicate Quiet(w: World) {
    && (forall r {:trigger w.states[r]} | 0 <= r < |w.states| ::
          !w.states[r].stage.Starting? && (w.states[r].stage.Live? ==> r in w.waits))
    && w.decided == {}
    && (forall me | me in w.blocked :: EndAt(w, w.blocked[me]).None?)
  }

  lemma QuietNoneGoOn(w: World, b: RunId)
    requires Quiet(w)
    ensures !CanGoOn(w, b)
  {
    if b in w.waits && b in w.blocked && w.blocked[b] < |w.states| {
      assert !IsDecided(w, w.blocked[b]);
    }
  }

  /** A daemon with nothing left to do has drained: nothing waits, no slot is
      held, and every State ever handed out has ended. A ring of waits, or a
      State its slot had forgotten, would be left standing. */
  lemma QuietHasDrained(w: World)
    requires Reachable(w) && Quiet(w)
    ensures w.waits == map[] && w.slots == map[]
    ensures forall r | 0 <= r < |w.states| :: w.states[r].end.Some? && !w.states[r].stage.Live?
  {
    ReachableInv(w);
    if me :| me in w.waits {
      var q := EveryWaitComesToAnEnd(w, me);
      QuietNoneGoOn(w, q[|q| - 1]);
    }
    QuietSlots(w);
    forall r | 0 <= r < |w.states|
      ensures w.states[r].end.Some? && !w.states[r].stage.Live?
    {
      hide Inv;
      StateOf(w, r);
    }
  }

  lemma QuietSlots(w: World)
    requires Inv(w) && Quiet(w) && w.waits == map[]
    ensures w.slots == map[]
  {
    hide Inv;
    if k :| k in w.slots {
      SlotOf(w, k);
    }
  }

  /** What is left of a run's way to its end. */
  function StageWork(stage: Stage): nat {
    match stage
    case Behind => 3
    case Starting => 2
    case Live => 1
    case Settled => 0
    case Discarded => 0
  }

  function StatesWork(states: seq<State>): nat {
    if states == [] then 0
    else StatesWork(states[..|states| - 1]) + StageWork(states[|states| - 1].stage)
  }

  /** How far the waiting threads below id `n` may yet follow moved States. */
  function FollowWork(blocked: map<RunId, RunId>, n: nat, made: nat): nat {
    if n == 0 then 0
    else FollowWork(blocked, n - 1, made)
         + if n - 1 in blocked && blocked[n - 1] < made then made - blocked[n - 1] else 0
  }

  function Work(w: World): nat {
    3 * StatesWork(w.states) + |w.decided| + FollowWork(w.blocked, |w.states|, |w.states|)
  }

  lemma {:induction false} StatesWorkUpdate(states: seq<State>, i: nat, s: State)
    requires i < |states|
    ensures StatesWork(states[i := s]) + StageWork(states[i].stage) == StatesWork(states) + StageWork(s.stage)
  {
    var last := |states| - 1;
    if i == last {
      assert states[i := s][..last] == states[..last];
    } else {
      assert states[i := s][..last] == states[..last][i := s];
      StatesWorkUpdate(states[..last], i, s);
    }
  }

  lemma {:induction false} FollowWorkUpdate(a: map<RunId, RunId>, b: map<RunId, RunId>, me: RunId, n: nat, made: nat)
    requires forall r | r != me :: (r in a <==> r in b) && (r in a ==> a[r] == b[r])
    requires me in a && a[me] < made && (me in b ==> a[me] < b[me])
    ensures FollowWork(b, n, made) <= FollowWork(a, n, made)
    ensures me < n ==> FollowWork(b, n, made) < FollowWork(a, n, made)
  {
    if n > 0 {
      FollowWorkUpdate(a, b, me, n - 1, made);
    }
  }

  /** Steps the coordinator takes by itself: all but a new ask and a reload. */
  predicate Internal(a: Action) {
    !a.DoStart? && !a.DoSupersede?
  }

  lemma ConcludeWork(w: World, r: RunId, end: End)
    requires r < |w.states| && w.states[r].stage.Live?
    ensures StatesWork(Conclude(w, r, end).states) + 1 == StatesWork(w.states)
    ensures |Conclude(w, r, end).decided| <= |w.decided| + 1
  {
    var v := Conclude(w, r, end);
    StatesWorkUpdate(w.states, r, v.states[r]);
  }

  lemma SettleWork(w: World, r: RunId, result: Option<Outcome>, ahead: Ahead)
    requires MaySettle(w, r)
    ensures Work(Settle(w, r, result, ahead)) < Work(w)
  {
    var key := w.states[r].key;
    if MaySettleHere(w, r) {
      var end := EndOf(w.slots[key], result);
      var u := Conclude(w, r, end);
      ConcludeWork(w, r, end);
      if w.slots[key].queued.Some? {
        var q := w.slots[key].queued.value.state;
        assert u.states[q].stage.Behind?;
        StatesWorkUpdate(u.states, q, u.states[q].(stage := Starting));
        StatesWorkUpdate(u.states, q, u.states[q].(stage := Discarded));
      }
    } else {
      ConcludeWork(w, r, Done(Dropped));
    }
  }

  lemma WaitsWork(w: World, a: Action)
    requires Inv(w) && Enabled(w, a) && (a.DoFollow? || a.DoReturn?)
    ensures Work(Step(w, a)) < Work(w)
  {
    hide Inv;
    var me := a.run;
    WaitOf(w, me);
    StateOf(w, w.blocked[me]);
    FollowWorkUpdate(w.blocked, Step(w, a).blocked, me, |w.states|, |w.states|);
  }

  /** Each step the coordinator takes by itself leaves it less to do: between two
      asks or reloads it takes finitely many, and then it is `Quiet`. So every
      run that is asked for ends. */
  lemma InternalStepsRunOut(w: World, a: Action)
    requires Reachable(w) && Enabled(w, a) && Internal(a)
    ensures Work(Step(w, a)) < Work(w)
  {
    hide Inv, Reachable, Settle, Launch, Finish, Work, MaySettle;
    ReachableInv(w);
    SoundAlways(w, a);
    match a
    case DoSettle(r, result, ahead) =>
      LiveMaySettle(w, r);
      SettleWork(w, r, result, ahead);
    case DoLaunch(r) => LaunchWork(w, r);
    case DoFinish(r, end) => FinishWork(w, r, end);
    case DoFollow(me) => WaitsWork(w, a);
    case DoReturn(me) => WaitsWork(w, a);
  }

  lemma FinishWork(w: World, r: RunId, end: End)
    requires r < |w.states| && (r, end) in w.decided
    ensures Work(Finish(w, r, end)) < Work(w)
  {
    var v := Finish(w, r, end);
    assert v.states == w.states[r := v.states[r]];
    StatesWorkUpdate(w.states, r, v.states[r]);
  }

  lemma LaunchWork(w: World, r: RunId)
    requires r < |w.states| && w.states[r].stage.Starting?
    ensures Work(Launch(w, r)) < Work(w)
  {
    StatesWorkUpdate(w.states, r, w.states[r].(stage := Live));
  }

  lemma LiveMaySettle(w: World, r: RunId)
    requires Inv(w) && r < |w.states| && w.states[r].stage.Live?
    ensures MaySettle(w, r)
  {
    hide Inv;
    StateOf(w, r);
    if w.states[r].key in w.slots {
      SlotOf(w, w.states[r].key);
    }
  }

  // ---- No caller is lost ------------------------------------------------

  /** The State a caller of `s` comes to by following the runs it moved to. */
  function LastOf(w: World, s: RunId): (t: RunId)
    requires s < |w.states|
    ensures s <= t < |w.states|
    decreases |w.states| - s
  {
    match w.states[s].end
    case Some(Moved(next)) => if s < next < |w.states| then LastOf(w, next) else s
    case _ => s
  }

  /** However the runs were queued, promoted, replaced and overtaken: every State
      ever handed out forwards its callers, over runs made ever later for the
      same instance, to one that has ended for good or is still accounted for:
      in flight, queued, or about to be told its end. */
  lemma {:induction false} NoCallerIsLost(w: World, s: RunId)
    requires Reachable(w) && s < |w.states|
    ensures var t := LastOf(w, s);
      && w.states[t].key == w.states[s].key
      && match w.states[t].end
         case Some(end) => end.Done?
         case None => IsRunning(w, t) || IsQueued(w, t) || IsDecided(w, t)
    decreases |w.states| - s
  {
    hide Inv, Reachable;
    ReachableInv(w);
    StateOf(w, s);
    if w.states[s].end.Some? && w.states[s].end.value.Moved? {
      NoCallerIsLost(w, w.states[s].end.value.next);
    }
  }

  lemma StepLater(w: World, a: Action)
    requires Inv(w) && Enabled(w, a)
    ensures Later(w, Step(w, a))
  {
    hide Inv, Later, Start, Supersede, Settle, Launch, Finish, Follow, Return;
    SoundAlways(w, a);
    match a
    case DoStart(me, want, key, epoch, found) => StartLater(w, me, want, key, epoch, found);
    case DoSupersede(key, how, epoch) => SupersedeLater(w, key, how, epoch);
    case DoSettle(r, result, ahead) => SettleStepLater(w, r, result, ahead);
    case DoLaunch(r) => OutsideLater(w, a);
    case DoFinish(r, end) => OutsideLater(w, a);
    case DoFollow(me) => OutsideLater(w, a);
    case DoReturn(me) => OutsideLater(w, a);
  }

  lemma OutsideLater(w: World, a: Action)
    requires Enabled(w, a) && Sound(w, a) && (a.DoLaunch? || a.DoFinish? || a.DoFollow? || a.DoReturn?)
    ensures Later(w, Step(w, a))
  {
  }

  lemma SettleStepLater(w: World, r: RunId, result: Option<Outcome>, ahead: Ahead)
    requires Inv(w) && Enabled(w, DoSettle(r, result, ahead)) && Sound(w, DoSettle(r, result, ahead))
    ensures Later(w, Settle(w, r, result, ahead))
  {
    hide Inv, Later, Conclude, SettleNext, SettleLast;
    LiveMaySettle(w, r);
    if MaySettleHere(w, r) {
      SettleLater(w, r, EndOf(w.slots[w.states[r].key], result));
    } else {
      ConcludeLater(w, r, Done(Dropped));
    }
  }

  lemma SupersedeLater(w: World, key: Key, how: Overtake, epoch: nat)
    requires Inv(w) && (key in w.slots ==> SlotIds(w, key))
    ensures Later(w, Supersede(w, key, how, epoch))
  {
    hide Inv, Later, Mark;
    if key in w.slots {
      SlotOf(w, key);
      if how.Again? {
        var u := Queue(w, key, epoch, false);
        QueueLater(w, key, epoch, false);
        QueueKeepsSlot(w, key, epoch, false, key);
        MarkLater(u, key, OvertakenAgain);
        LaterTransitive(w, u, Mark(u, key, OvertakenAgain));
      } else {
        MarkLater(w, key, OvertakenGone(epoch));
      }
    } else {
      assert Later(w, w) by { LaterReflexive(w); }
    }
  }

  lemma LaterReflexive(w: World)
    ensures Later(w, w)
  {
  }

  lemma AskLater(w: World, u: World, me: Caller, key: Key, state: RunId)
    requires Later(w, u)
    ensures Later(w, Ask(u, me, key, state).0)
  {
    var v := Ask(u, me, key, state).0;
    forall r | 0 <= r < |w.states|
      ensures LaterState(w, v, r)
    {
      assert LaterState(w, u, r);
    }
  }

  lemma StartLater(w: World, me: Caller, want: Want, key: Key, epoch: nat, found: Found)
    requires Inv(w) && Enabled(w, DoStart(me, want, key, epoch, found))
    requires key in w.slots ==> SlotIds(w, key)
    ensures Later(w, Start(w, me, want, key, epoch, found).0)
  {
    hide Inv, Later, Ask, Queue, Replace, NewSlot;
    LaterReflexive(w);
    if key in w.slots {
      var slot := w.slots[key];
      SlotOf(w, key);
      if slot.overtaken.None? && (want.Cold? || want.Any? || (want.Changed? && found.sees)) {
        AskLater(w, w, me, key, slot.running);
      } else if want.Changed? && slot.overtaken.None? && !found.backoff {
        if found.known {
          QueueReplaceLater(w, key, epoch);
          var v := Replace(Queue(w, key, epoch, false), key);
          AskLater(w, v, me, key, v.slots[key].running);
        }
      } else {
        QueueLater(w, key, epoch, want.Forced?);
        var u := Queue(w, key, epoch, want.Forced?);
        AskLater(w, u, me, key, u.slots[key].queued.value.state);
      }
    } else if (want.Cold? && found.recorded) || (!want.Forced? && found.backoff) || !found.known {
    } else {
      NewSlotLater(w, key);
      AskLater(w, NewSlot(w, key), me, key, |w.states|);
    }
  }

  lemma QueueReplaceLater(w: World, key: Key, epoch: nat)
    requires key in w.slots && SlotOk(w, key) && w.slots[key].overtaken.None?
    requires w.states[w.slots[key].running].stage.Live?
    ensures var u := Queue(w, key, epoch, false);
      && SlotIds(u, key) && Later(w, Replace(u, key)) && key in Replace(u, key).slots
  {
    hide Later;
    var u := Queue(w, key, epoch, false);
    QueueLater(w, key, epoch, false);
    QueueKeepsSlot(w, key, epoch, false, key);
    ReplaceLater(u, key);
    LaterTransitive(w, u, Replace(u, key));
  }

  lemma {:induction false} LeadsLater(w: World, trace: seq<Action>, v: World)
    requires Inv(w) && Leads(w, trace, v)
    ensures Later(w, v) && Inv(v)
    decreases |trace|
  {
    hide Inv, Step, Later;
    if trace == [] {
      LaterReflexive(w);
    } else {
      StepKeeps(w, trace[0]);
      StepLater(w, trace[0]);
      LeadsLater(Step(w, trace[0]), trace[1..], v);
      LaterTransitive(w, Step(w, trace[0]), v);
    }
  }

  /** What a caller is once told of a run it is told for ever: the first end
      written stands, along the whole chain. */
  lemma {:induction false} OutcomeStands(w: World, trace: seq<Action>, v: World, s: RunId)
    requires Reachable(w) && Leads(w, trace, v) && s < |w.states|
    requires w.states[LastOf(w, s)].end.Some?
    ensures s < |v.states| && LastOf(v, s) == LastOf(w, s)
    ensures v.states[LastOf(w, s)].end == w.states[LastOf(w, s)].end
    decreases |w.states| - s
  {
    hide Inv, Leads, Reachable;
    ReachableInv(w);
    LeadsLater(w, trace, v);
    assert LaterState(w, v, s) && LaterState(w, v, LastOf(w, s));
    StateOf(w, s);
    if w.states[s].end.Some? && w.states[s].end.value.Moved? {
      OutcomeStands(w, trace, v, w.states[s].end.value.next);
    }
  }

  // ---- What is stored ---------------------------------------------------

  /** Of each instance, the runs whose results were stored were made in the order
      they stored, and no run that a reload overtook or a read replaced stored. */
  lemma StoresInOrder(w: World)
    requires Reachable(w)
    ensures forall i | 0 <= i < |w.stores| ::
      w.stores[i] < |w.states| && !w.states[w.stores[i]].overtook && !w.states[w.stores[i]].replaced
    ensures forall i, j | 0 <= i < j < |w.stores| && w.states[w.stores[i]].key == w.states[w.stores[j]].key ::
      w.stores[i] < w.stores[j]
  {
    hide Reachable, Inv;
    ReachableInv(w);
    StoresOf(w);
    hide StoresOk;
    forall i | 0 <= i < |w.stores|
      ensures w.stores[i] < |w.states| && !w.states[w.stores[i]].overtook && !w.states[w.stores[i]].replaced
    {
      StoredState(w, i);
    }
  }

  lemma StoresOf(w: World)
    requires Inv(w)
    ensures StoresOk(w)
    ensures forall i, j | 0 <= i < j < |w.stores| && w.stores[i] < |w.states| && w.stores[j] < |w.states|
      && w.states[w.stores[i]].key == w.states[w.stores[j]].key :: w.stores[i] < w.stores[j]
  {
    hide SlotsOk, StatesOk, Accounted, DecidedOk, WaitsOk, NoRing;
  }

  lemma StoredState(w: World, i: nat)
    requires Inv(w) && i < |w.stores|
    ensures w.stores[i] < |w.states| && w.states[w.stores[i]].stored
    ensures !w.states[w.stores[i]].overtook && !w.states[w.stores[i]].replaced
  {
    assert w.stores[i] < |w.states| && w.states[w.stores[i]].stored by {
      StoresOf(w);
      hide Inv;
    }
    hide Inv;
    StateOf(w, w.stores[i]);
  }

  /** A caller told Stored was told of a run that stored. */
  lemma ToldStoredIsStored(w: World, s: RunId)
    requires Inv(w) && s < |w.states| && w.states[s].end == Some(Done(Stored))
    ensures s in w.stores
  {
    StateOf(w, s);
    StoresOf(w);
    hide Inv;
  }

  // ---- Freshness --------------------------------------------------------

  /** Run `r` had been chosen to run by the time the world was `w`. */
  predicate Begun(w: World, r: RunId) {
    r < |w.states| && !w.states[r].stage.Behind?
  }

  lemma AskHands(w: World, me: Caller, key: Key, state: RunId)
    ensures var (v, run) := Ask(w, me, key, state);
      && v.states == w.states && v.slots == w.slots && v.decided == w.decided && v.stores == w.stores
      && run.key == key && run.state == state
  {
  }

  /** A caller that wants a run to begin after it asks is handed one that has not
      begun, and no run of the instance made later than that one has either. */
  lemma HandedUnbegun(w: World, me: Caller, want: Want, key: Key, epoch: nat, found: Found, z: RunId)
    requires Inv(w) && (want.Fresh? || want.Forced?) && (key in w.slots ==> SlotIds(w, key))
    requires Start(w, me, want, key, epoch, found).1.Some?
    ensures var v := Start(w, me, want, key, epoch, found).0;
      var s := Start(w, me, want, key, epoch, found).1.value.state;
      && s < |v.states| && v.states[s].key == key
      && (s <= z < |w.states| && w.states[z].key == key ==> !Begun(w, z))
  {
    hide Inv, Ask;
    if key in w.slots {
      SlotOf(w, key);
      if z < |w.states| {
        StateOf(w, z);
      }
      var u := Queue(w, key, epoch, want.Forced?);
      AskHands(u, me, key, u.slots[key].queued.value.state);
    } else {
      AskHands(NewSlot(w, key), me, key, |w.states|);
    }
  }

  lemma {:induction false} LastOfKey(w: World, s: RunId)
    requires Inv(w) && s < |w.states|
    ensures w.states[LastOf(w, s)].key == w.states[s].key
    decreases |w.states| - s
  {
    hide Inv;
    StateOf(w, s);
    if w.states[s].end.Some? && w.states[s].end.value.Moved? {
      LastOfKey(w, w.states[s].end.value.next);
    }
  }

  /** A refresh, a file event or `--force` that is told Stored got a run that
      began after it asked, and that stored after it asked, even when the run it
      was handed was itself replaced or overtaken on the way. */
  lemma StoredIsFresh(w: World, a: Action, trace: seq<Action>, v: World)
    requires Reachable(w) && Enabled(w, a) && Sound(w, a)
    requires a.DoStart? && (a.want.Fresh? || a.want.Forced?)
    requires Start(w, a.caller, a.want, a.key, a.epoch, a.found).1.Some?
    requires Leads(Step(w, a), trace, v)
    ensures var s := Start(w, a.caller, a.want, a.key, a.epoch, a.found).1.value.state;
      && s < |v.states|
      && (var z := LastOf(v, s);
          v.states[z].end == Some(Done(Stored)) ==>
            v.states[z].key == a.key && !Begun(w, z) && z !in w.stores && z in v.stores)
  {
    hide Inv, Reachable, Leads, Start, Step;
    ReachableInv(w);
    var u := Step(w, a);
    assert u == Start(w, a.caller, a.want, a.key, a.epoch, a.found).0 by { StepStart(w, a); }
    var s := Start(w, a.caller, a.want, a.key, a.epoch, a.found).1.value.state;
    HandedUnbegun(w, a.caller, a.want, a.key, a.epoch, a.found, 0);
    StepKeeps(w, a);
    StepLater(w, a);
    LeadsLater(u, trace, v);
    assert LaterState(u, v, s);
    var z := LastOf(v, s);
    LastOfKey(v, s);
    if v.states[z].end == Some(Done(Stored)) {
      ToldStoredIsStored(v, z);
      if z < |w.states| {
        assert LaterState(w, u, z) && LaterState(u, v, z);
        HandedUnbegun(w, a.caller, a.want, a.key, a.epoch, a.found, z);
        StateOf(w, z);
      }
      if z in w.stores {
        var i :| 0 <= i < |w.stores| && w.stores[i] == z;
        StoredState(w, i);
      }
    }
  }

  lemma StepStart(w: World, a: Action)
    requires Enabled(w, a) && Sound(w, a) && a.DoStart?
    ensures Step(w, a) == Start(w, a.caller, a.want, a.key, a.epoch, a.found).0
  {
    hide Start;
  }

  // ---- What a queued run is owed ----------------------------------------

  /** While run `q` is behind another, it is to run under a registry of `epoch` at
      least, and past the backoff if `forced`. */
  predicate Owed(w: World, q: RunId, epoch: nat, forced: bool) {
    && q < |w.states|
    && (w.states[q].stage.Behind? ==>
          && IsQueued(w, q)
          && (var queued := w.slots[w.states[q].key].queued.value;
              epoch <= queued.epoch && (forced ==> queued.forced)))
  }

  lemma QueueOwes(w: World, key: Key, e: nat, f: bool, q: RunId, epoch: nat, forced: bool)
    requires key in w.slots && SlotOk(w, key) && Owed(w, q, epoch, forced)
    ensures Owed(Queue(w, key, e, f), q, epoch, forced)
  {
  }

  lemma ReplaceOwes(w: World, key: Key, q: RunId, epoch: nat, forced: bool)
    requires MayReplace(w, key) && Owed(w, q, epoch, forced)
    ensures Owed(Replace(w, key), q, epoch, forced)
  {
  }

  lemma MarkOwes(w: World, key: Key, mark: Overtaken, q: RunId, epoch: nat, forced: bool)
    requires key in w.slots && SlotOk(w, key) && Owed(w, q, epoch, forced)
    ensures Owed(Mark(w, key, mark), q, epoch, forced)
  {
  }

  lemma AskOwes(w: World, me: Caller, key: Key, state: RunId, q: RunId, epoch: nat, forced: bool)
    requires Owed(w, q, epoch, forced)
    ensures Owed(Ask(w, me, key, state).0, q, epoch, forced)
  {
  }

  lemma SettleOwes(w: World, r: RunId, result: Option<Outcome>, ahead: Ahead, q: RunId, epoch: nat, forced: bool)
    requires MaySettle(w, r) && Owed(w, q, epoch, forced)
    ensures Owed(Settle(w, r, result, ahead), q, epoch, forced)
  {
    if MaySettleHere(w, r) {
    }
  }

  lemma StartOwes(w: World, a: Action, q: RunId, epoch: nat, forced: bool)
    requires Inv(w) && Enabled(w, a) && Sound(w, a) && a.DoStart? && Owed(w, q, epoch, forced)
    ensures Owed(Start(w, a.caller, a.want, a.key, a.epoch, a.found).0, q, epoch, forced)
  {
    hide Inv, Ask, Queue, Replace, Owed;
    var DoStart(me, want, key, e, found) := a;
    if key in w.slots {
      var slot := w.slots[key];
      SlotOf(w, key);
      AskOwes(w, me, key, slot.running, q, epoch, forced);
      if want.Changed? && slot.overtaken.None? && !found.sees {
        QueueReplaceOwes(w, key, e, q, epoch, forced);
        var v := Replace(Queue(w, key, e, false), key);
        AskOwes(v, me, key, v.slots[key].running, q, epoch, forced);
      }
      var u := Queue(w, key, e, want.Forced?);
      QueueOwes(w, key, e, want.Forced?, q, epoch, forced);
      AskOwes(u, me, key, u.slots[key].queued.value.state, q, epoch, forced);
    } else {
      NewSlotOwes(w, key, q, epoch, forced);
      AskOwes(NewSlot(w, key), me, key, |w.states|, q, epoch, forced);
    }
  }

  lemma NewSlotOwes(w: World, key: Key, q: RunId, epoch: nat, forced: bool)
    requires key !in w.slots && Owed(w, q, epoch, forced)
    ensures Owed(NewSlot(w, key), q, epoch, forced)
  {
  }

  lemma QueueReplaceOwes(w: World, key: Key, e: nat, q: RunId, epoch: nat, forced: bool)
    requires key in w.slots && SlotOk(w, key) && w.slots[key].overtaken.None?
    requires w.states[w.slots[key].running].stage.Live? && Owed(w, q, epoch, forced)
    ensures var u := Queue(w, key, e, false);
      && SlotIds(u, key) && key in Replace(u, key).slots && Owed(Replace(u, key), q, epoch, forced)
  {
    hide Owed;
    var u := Queue(w, key, e, false);
    QueueKeepsSlot(w, key, e, false, key);
    QueueOwes(w, key, e, false, q, epoch, forced);
    ReplaceOwes(u, key, q, epoch, forced);
  }

  lemma SupersedeOwes(w: World, key: Key, how: Overtake, e: nat, q: RunId, epoch: nat, forced: bool)
    requires key in w.slots && SlotOk(w, key) && Owed(w, q, epoch, forced)
    ensures Owed(Supersede(w, key, how, e), q, epoch, forced)
  {
    hide Owed;
    if how.Again? {
      var u := Queue(w, key, e, false);
      QueueKeepsSlot(w, key, e, false, key);
      QueueOwes(w, key, e, false, q, epoch, forced);
      MarkOwes(u, key, OvertakenAgain, q, epoch, forced);
    } else {
      MarkOwes(w, key, OvertakenGone(e), q, epoch, forced);
    }
  }

  lemma StepOwes(w: World, a: Action, q: RunId, epoch: nat, forced: bool)
    requires Inv(w) && Enabled(w, a) && Owed(w, q, epoch, forced)
    ensures Owed(Step(w, a), q, epoch, forced)
  {
    hide Inv, Start, Supersede, Settle, MaySettle, SlotOk;
    SoundAlways(w, a);
    match a
    case DoStart(me, want, key, e, found) => StartOwes(w, a, q, epoch, forced);
    case DoSupersede(key, how, e) =>
      if key in w.slots {
        SlotOf(w, key);
        SupersedeOwes(w, key, how, e, q, epoch, forced);
      } else {
        NoSlotSupersede(w, key, how, e);
      }
    case DoSettle(r, result, ahead) =>
      LiveMaySettle(w, r);
      SettleOwes(w, r, result, ahead, q, epoch, forced);
    case DoLaunch(r) =>
    case DoFinish(r, end) =>
    case DoFollow(me) =>
    case DoReturn(me) =>
  }

  lemma NoSlotSupersede(w: World, key: Key, how: Overtake, e: nat)
    requires key !in w.slots
    ensures Supersede(w, key, how, e) == w
  {
  }

  lemma {:induction false} LeadsOwes(w: World, trace: seq<Action>, v: World, q: RunId, epoch: nat, forced: bool)
    requires Inv(w) && Leads(w, trace, v) && Owed(w, q, epoch, forced)
    ensures Owed(v, q, epoch, forced)
    decreases |trace|
  {
    hide Inv, Step, Owed;
    if trace != [] {
      StepKeeps(w, trace[0]);
      StepOwes(w, trace[0], q, epoch, forced);
      LeadsOwes(Step(w, trace[0]), trace[1..], v, q, epoch, forced);
    }
  }

  /** A caller handed a run that has yet to begin is owed it: no reload that put a
      registry no newer than the caller's in force drops it, and one it forced is
      not held back by the backoff. So when the run in flight settles, it begins,
      but for a daemon that stops, a newer reload that removed its Source, or an
      unforced run in backoff. */
  lemma AskedRunIsOwed(w: World, a: Action, trace: seq<Action>, v: World, result: Option<Outcome>, ahead: Ahead)
    requires Reachable(w) && Enabled(w, a) && Sound(w, a) && a.DoStart?
    requires Start(w, a.caller, a.want, a.key, a.epoch, a.found).1.Some?
    requires Leads(Step(w, a), trace, v)
    ensures var q := Start(w, a.caller, a.want, a.key, a.epoch, a.found).1.value.state;
      IsQueued(v, q) ==>
        var slot := v.slots[v.states[q].key];
        && (DroppedByOvertake(slot) ==> a.epoch < slot.overtaken.value.epoch)
        && (a.want.Forced? && result.Some? && ahead.runtime && ahead.known && !DroppedByOvertake(slot)
            ==> RunsNext(slot, result, ahead))
  {
    hide Inv, Reachable, Leads, Start, Step;
    ReachableInv(w);
    var u := Step(w, a);
    StepStart(w, a);
    StepKeeps(w, a);
    var q := Start(w, a.caller, a.want, a.key, a.epoch, a.found).1.value.state;
    HandedOwed(w, a);
    LeadsOwes(u, trace, v, q, a.epoch, a.want.Forced?);
    if IsQueued(v, q) {
      LeadsLater(u, trace, v);
      SlotOf(v, v.states[q].key);
    }
  }

  lemma InPlaceOwed(w: World, me: Caller, key: Key, epoch: nat, found: Found, forced: bool)
    requires Inv(w) && key in w.slots && SlotOk(w, key) && w.slots[key].overtaken.None?
    requires w.states[w.slots[key].running].stage.Live?
    ensures var u := Queue(w, key, epoch, false);
      && SlotIds(u, key)
      && (var v := Replace(u, key);
          key in v.slots && Owed(Ask(v, me, key, v.slots[key].running).0, v.slots[key].running, epoch, forced))
  {
    hide Inv, Ask;
    var u := Queue(w, key, epoch, false);
    QueueKeepsSlot(w, key, epoch, false, key);
    var v := Replace(u, key);
    AskHands(v, me, key, v.slots[key].running);
  }

  lemma HandedOwed(w: World, a: Action)
    requires Inv(w) && Enabled(w, a) && Sound(w, a) && a.DoStart?
    requires Start(w, a.caller, a.want, a.key, a.epoch, a.found).1.Some?
    ensures var (v, run) := Start(w, a.caller, a.want, a.key, a.epoch, a.found);
      Owed(v, run.value.state, a.epoch, a.want.Forced?)
  {
    hide Inv, Ask, Replace;
    var DoStart(me, want, key, epoch, found) := a;
    if key in w.slots {
      var slot := w.slots[key];
      SlotOf(w, key);
      if slot.overtaken.None? && (want.Cold? || want.Any? || (want.Changed? && found.sees)) {
        AskHands(w, me, key, slot.running);
      } else if want.Changed? && slot.overtaken.None? && !found.backoff {
        InPlaceOwed(w, me, key, epoch, found, false);
        var v := Replace(Queue(w, key, epoch, false), key);
        AskHands(v, me, key, v.slots[key].running);
      } else {
        var u := Queue(w, key, epoch, want.Forced?);
        AskHands(u, me, key, u.slots[key].queued.value.state);
      }
    } else {
      AskHands(NewSlot(w, key), me, key, |w.states|);
    }
  }

  // ---- The end a replaced run's callers are told ------------------------

  /** A run a read replaced forwards its callers to the run in its place, but for
      one whose own task came back first: its callers are told Dropped. */
  lemma ReplacedRunForwards(w: World, r: RunId)
    requires Reachable(w) && r < |w.states| && w.states[r].replaced && w.states[r].end.Some?
    ensures w.states[r].end.value.Moved? || (w.states[r].end == Some(Done(Dropped)) && w.states[r].stage.Settled?)
    ensures w.states[r].stage.Live? ==> w.states[r].end.value.Moved?
  {
    hide Inv, Reachable;
    ReachableInv(w);
    StateOf(w, r);
  }

  /** The second happens: the lock is let go before the replaced run's end is
      written, and in between its task settles and writes Dropped, which stands.
      A run is in flight for the instance, and the caller is told of none. */
  lemma ReplacedCallerMayBeDropped(key: Key) returns (trace: seq<Action>, w: World)
    ensures Leads(INIT, trace, w)
    ensures |w.states| == 2 && w.states[0].replaced && w.states[0].end == Some(Done(Dropped))
    ensures key in w.slots && w.slots[key].running == 1 && (0, Moved(1)) in w.decided
  {
    var w2 := RaceBegins(key);
    var w3 := Step(w2, RaceAction(key, 2));
    assert w3.slots == map[key := Slot(1, None, None)] && w3.decided == {(0, Moved(1))};
    assert w3.states == [NewState(key, Live).(replaced := true), NewState(key, Starting)];
    var w4 := Step(w3, RaceAction(key, 3));
    assert w4.decided == {(0, Moved(1)), (0, Done(Dropped))} && w4.slots == w3.slots;
    w := Step(w4, RaceAction(key, 4));
    hide Step, RaceAction;
    var head := [RaceAction(key, 0), RaceAction(key, 1)];
    LeadsAppend(INIT, head, w2, RaceAction(key, 2));
    LeadsAppend(INIT, head + [RaceAction(key, 2)], w3, RaceAction(key, 3));
    LeadsAppend(INIT, head + [RaceAction(key, 2)] + [RaceAction(key, 3)], w4, RaceAction(key, 4));
    trace := head + [RaceAction(key, 2)] + [RaceAction(key, 3)] + [RaceAction(key, 4)];
  }

  /** A cold read starts a run; it is launched; a read that found an input changed
      puts another in its place; the first run's task settles; it writes its end. */
  function RaceAction(key: Key, i: nat): Action
    requires i < 5
  {
    [DoStart(None, Cold, key, 0, Found(false, true, true, false)),
     DoLaunch(0),
     DoStart(None, Changed, key, 0, Found(false, true, false, true)),
     DoSettle(0, Some(Stored), Ahead(true, false, true)),
     DoFinish(0, Done(Dropped))][i]
  }

  lemma RaceBegins(key: Key) returns (w2: World)
    ensures Leads(INIT, [RaceAction(key, 0), RaceAction(key, 1)], w2)
    ensures w2 == INIT.(slots := map[key := Slot(0, None, None)], states := [NewState(key, Live)])
  {
    var a0, a1 := RaceAction(key, 0), RaceAction(key, 1);
    var w1 := Step(INIT, a0);
    w2 := Step(w1, a1);
    assert w2.states == [NewState(key, Live)];
    hide Step, RaceAction;
    LeadsAppend(INIT, [], INIT, a0);
    LeadsAppend(INIT, [] + [a0], w1, a1);
    assert [] + [a0] + [a1] == [a0, a1];
  }

  lemma {:induction false} LeadsAppend(a: World, trace: seq<Action>, b: World, next: Action)
    requires Leads(a, trace, b) && Enabled(b, next)
    ensures Leads(a, trace + [next], Step(b, next))
    decreases |trace|
  {
    hide Step, Enabled;
    if trace == [] {
      assert (trace + [next])[1..] == [];
    } else {
      assert (trace + [next])[1..] == trace[1..] + [next];
      LeadsAppend(Step(a, trace[0]), trace[1..], b, next);
    }
  }
}
