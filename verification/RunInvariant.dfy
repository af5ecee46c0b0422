/** What every step of the run coordinator keeps. */
module RunInvariant {
  import opened Prelude
  import opened WaitGraph
  import opened RunTable

  predicate IsRunning(w: World, r: RunId) {
    r < |w.states| && w.states[r].key in w.slots && w.slots[w.states[r].key].running == r
  }

  predicate IsQueued(w: World, r: RunId) {
    && r < |w.states| && w.states[r].key in w.slots
    && w.slots[w.states[r].key].queued.Some? && w.slots[w.states[r].key].queued.value.state == r
  }

  /** An end has been decided for run `r`, and a thread is about to write it. */
  ghost predicate IsDecided(w: World, r: RunId) {
    exists e :: (r, e) in w.decided
  }

  predicate SlotOk(w: World, k: Key)
    requires k in w.slots
  {
    var slot := w.slots[k];
    && SlotIds(w, k)
    && (var s := w.states[slot.running];
        && s.key == k && (s.stage.Starting? || s.stage.Live?) && s.end.None?
        && !s.replaced && !s.stored && (s.overtook <==> slot.overtaken.Some?))
    && (slot.queued.Some? ==>
          var q := slot.queued.value.state;
          var s := w.states[q];
          && s.key == k && s.stage.Behind? && s.end.None? && slot.running < q
          && !s.overtook && !s.replaced && !s.stored)
    && (slot.overtaken == Some(OvertakenAgain) ==> slot.queued.Some?)
  }

  /** An end of run `r` sends its waiters to a later run of the same instance,
      and says Stored only of a run that stored. Of a run that was replaced, it
      forwards them, or was decided when the run's own task came back. */
  predicate EndOk(w: World, r: RunId, e: End)
    requires r < |w.states|
  {
    && (e.Moved? ==> r < e.next < |w.states| && w.states[e.next].key == w.states[r].key)
    && (e == Done(Stored) ==> w.states[r].stored)
    && (w.states[r].replaced ==> e.Moved? || (e == Done(Dropped) && w.states[r].stage.Settled?))
  }

  predicate StateOk(w: World, r: RunId)
    requires r < |w.states|
  {
    var s := w.states[r];
    && (s.stage.Behind? ==> IsQueued(w, r))
    && (s.stage.Starting? ==> IsRunning(w, r))
    && (s.stage.Live? ==> IsRunning(w, r) || s.replaced)
    && (s.key in w.slots ==> r <= w.slots[s.key].running || IsQueued(w, r))
    && (s.end.Some? ==> EndOk(w, r, s.end.value))
    && (s.replaced ==> s.stage.Live? || s.stage.Settled?)
    && (s.overtook || s.replaced ==> !s.stored)
    && (s.stored ==> s.stage.Settled?)
  }

  ghost predicate SlotsOk(w: World) {
    forall k {:trigger SlotOk(w, k)} | k in w.slots :: SlotOk(w, k)
  }

  ghost predicate StatesOk(w: World) {
    forall r {:trigger StateOk(w, r)} | 0 <= r < |w.states| :: StateOk(w, r)
  }

  ghost predicate AccountedFor(w: World, r: RunId)
    requires r < |w.states|
  {
    IsRunning(w, r) || IsQueued(w, r) || w.states[r].end.Some? || IsDecided(w, r)
  }

  /** No State is lost: one that is neither in flight nor queued has ended, or a
      thread is about to end it. */
  ghost predicate Accounted(w: World) {
    forall r {:trigger AccountedFor(w, r)} | 0 <= r < |w.states| :: AccountedFor(w, r)
  }

  /** An end about to be written is of a run its slot has let go. */
  predicate DecidedEndOk(w: World, r: RunId, e: End) {
    r < |w.states| && EndOk(w, r, e) && !IsRunning(w, r) && !IsQueued(w, r)
  }

  ghost predicate DecidedOk(w: World) {
    forall r, e {:trigger DecidedEndOk(w, r, e)} | (r, e) in w.decided :: DecidedEndOk(w, r, e)
  }

  ghost predicate StoresOk(w: World) {
    && (forall i | 0 <= i < |w.stores| :: w.stores[i] < |w.states| && w.states[w.stores[i]].stored)
    && (forall r | 0 <= r < |w.states| && w.states[r].stored :: r in w.stores)
    && (forall i, j | 0 <= i < j < |w.stores| && w.states[w.stores[i]].key == w.states[w.stores[j]].key ::
          w.stores[i] < w.stores[j])
  }

  ghost predicate WaitsOk(w: World) {
    && w.blocked.Keys == w.waits.Keys
    && (forall me | me in w.waits ::
          && HasThread(w, me)
          && w.blocked[me] < |w.states| && w.states[w.blocked[me]].key == w.waits[me])
  }

  ghost predicate NoRing(w: World) {
    Acyclic(Edges(w.slots, w.waits))
  }

  ghost predicate Inv(w: World) {
    && SlotsOk(w) && StatesOk(w) && Accounted(w) && DecidedOk(w) && StoresOk(w) && WaitsOk(w)
    && NoRing(w) && !w.panicked
  }

  lemma SlotOf(w: World, k: Key)
    requires Inv(w) && k in w.slots
    ensures SlotOk(w, k)
  {
    hide SlotOk;
  }

  lemma StateOf(w: World, r: RunId)
    requires Inv(w) && r < |w.states|
    ensures StateOk(w, r) && AccountedFor(w, r)
  {
    hide StateOk, AccountedFor;
  }

  lemma DecidedOf(w: World, r: RunId, e: End)
    requires Inv(w) && (r, e) in w.decided
    ensures DecidedEndOk(w, r, e)
  {
    hide DecidedEndOk;
  }

  lemma WaitOf(w: World, me: RunId)
    requires Inv(w) && (me in w.waits || me in w.blocked)
    ensures me in w.waits && me in w.blocked && HasThread(w, me)
    ensures w.blocked[me] < |w.states| && w.states[w.blocked[me]].key == w.waits[me]
  {
    assert WaitsOk(w);
    hide SlotsOk, StatesOk, Accounted, DecidedOk, StoresOk, NoRing, HasThread;
  }

  // ---- What no step takes back ------------------------------------------

  /** A State keeps its key and its first end, and its run never goes back
      behind another, loses its thread or takes back what it stored. */
  predicate LaterState(w: World, v: World, r: RunId)
    requires r < |w.states| && r < |v.states|
  {
    var a, b := w.states[r], v.states[r];
    && b.key == a.key
    && (a.end.Some? ==> b.end == a.end)
    && (b.stage.Behind? ==> a.stage.Behind?)
    && (HasThread(w, r) ==> HasThread(v, r))
    && (a.stored ==> b.stored)
    && (a.stage.Settled? ==> b.stage.Settled?)
  }

  ghost predicate Later(w: World, v: World) {
    && |w.states| <= |v.states|
    && (forall r {:trigger LaterState(w, v, r)} | 0 <= r < |w.states| :: LaterState(w, v, r))
  }

  lemma LaterTransitive(u: World, v: World, w: World)
    requires Later(u, v) && Later(v, w)
    ensures Later(u, w)
  {
    forall r | 0 <= r < |u.states|
      ensures LaterState(u, w, r)
    {
      assert LaterState(u, v, r) && LaterState(v, w, r);
    }
  }

  lemma EndStands(w: World, v: World, r: RunId, e: End)
    requires Later(w, v) && r < |w.states| && EndOk(w, r, e)
    requires r < |v.states| && (v.states[r].replaced ==> w.states[r].replaced)
    ensures EndOk(v, r, e)
  {
    assert LaterState(w, v, r);
    if e.Moved? {
      assert LaterState(w, v, e.next);
    }
  }

  lemma StoresStand(w: World, v: World)
    requires StoresOk(w) && Later(w, v) && v.stores == w.stores
    requires forall r | 0 <= r < |v.states| && v.states[r].stored :: r < |w.states| && w.states[r].stored
    ensures StoresOk(v)
  {
    forall i | 0 <= i < |v.stores|
      ensures v.stores[i] < |v.states| && v.states[v.stores[i]].stored
      ensures v.states[v.stores[i]].key == w.states[w.stores[i]].key
    {
      assert LaterState(w, v, w.stores[i]);
    }
  }

  lemma WaitsStand(w: World, v: World)
    requires WaitsOk(w) && Later(w, v) && v.waits == w.waits && v.blocked == w.blocked
    ensures WaitsOk(v)
  {
    forall me | me in v.waits
      ensures HasThread(v, me) && v.blocked[me] < |v.states| && v.states[v.blocked[me]].key == v.waits[me]
    {
      assert LaterState(w, v, me) && LaterState(w, v, v.blocked[me]);
    }
  }

  /** The run in flight of every slot but that of `key` is as it was, or its slot
      is gone: the edges that go to other instances stand. */
  lemma SlotChanged(w: World, v: World, key: Key)
    requires NoRing(w) && v.waits == w.waits
    requires forall k | k != key && k in v.slots :: k in w.slots && v.slots[k].running == w.slots[k].running
    requires key in v.slots ==>
      v.slots[key].running !in v.waits || (key in w.slots && v.slots[key].running == w.slots[key].running)
    ensures NoRing(v)
  {
    Redraw(Edges(w.slots, w.waits), Edges(v.slots, v.waits));
  }

  // ---- Steps under the lock ---------------------------------------------

  lemma QueueKeepsSlot(w: World, key: Key, epoch: nat, forced: bool, k: Key)
    requires key in w.slots && SlotOk(w, key) && k in w.slots && SlotOk(w, k)
    ensures SlotOk(Queue(w, key, epoch, forced), k)
  {
  }

  lemma QueueKeepsState(w: World, key: Key, epoch: nat, forced: bool, r: RunId)
    requires key in w.slots && SlotOk(w, key) && r <= |w.states|
    requires r < |w.states| ==> StateOk(w, r) && AccountedFor(w, r)
    ensures var v := Queue(w, key, epoch, forced); r < |v.states| ==> StateOk(v, r) && AccountedFor(v, r)
  {
    var v := Queue(w, key, epoch, forced);
    if r < |w.states| && w.states[r].end.Some? {
      QueueLater(w, key, epoch, forced);
      EndStands(w, v, r, w.states[r].end.value);
    }
    hide EndOk, Later;
  }

  lemma QueueKeepsDecided(w: World, key: Key, epoch: nat, forced: bool, r: RunId, e: End)
    requires key in w.slots && SlotOk(w, key) && DecidedEndOk(w, r, e)
    ensures DecidedEndOk(Queue(w, key, epoch, forced), r, e)
  {
  }

  lemma QueueLater(w: World, key: Key, epoch: nat, forced: bool)
    requires key in w.slots && SlotOk(w, key)
    ensures Later(w, Queue(w, key, epoch, forced))
  {
  }

  lemma QueueKeepsRest(w: World, key: Key, epoch: nat, forced: bool)
    requires key in w.slots && SlotOk(w, key) && StoresOk(w) && WaitsOk(w) && NoRing(w)
    ensures var v := Queue(w, key, epoch, forced); StoresOk(v) && WaitsOk(v) && NoRing(v)
  {
    hide StoresOk, WaitsOk, NoRing, Later;
    var v := Queue(w, key, epoch, forced);
    QueueLater(w, key, epoch, forced);
    StoresStand(w, v);
    WaitsStand(w, v);
    SlotChanged(w, v, key);
  }

  lemma QueueKeeps(w: World, key: Key, epoch: nat, forced: bool)
    requires Inv(w) && key in w.slots
    ensures Inv(Queue(w, key, epoch, forced))
  {
    hide SlotOk, StateOk, AccountedFor, DecidedEndOk, StoresOk, WaitsOk, NoRing;
    var v := Queue(w, key, epoch, forced);
    assert SlotOk(w, key);
    forall k | k in v.slots
      ensures SlotOk(v, k)
    {
      QueueKeepsSlot(w, key, epoch, forced, k);
    }
    forall r | 0 <= r < |v.states|
      ensures StateOk(v, r) && AccountedFor(v, r)
    {
      QueueKeepsState(w, key, epoch, forced, r);
    }
    forall r, e | (r, e) in v.decided
      ensures DecidedEndOk(v, r, e)
    {
      QueueKeepsDecided(w, key, epoch, forced, r, e);
    }
    QueueKeepsRest(w, key, epoch, forced);
  }

  /** A read may replace the run in flight: none overtook it, and one is queued. */
  predicate MayReplace(w: World, key: Key) {
    && key in w.slots && SlotOk(w, key)
    && w.slots[key].overtaken.None? && w.slots[key].queued.Some?
    && w.states[w.slots[key].running].stage.Live?
  }

  lemma ReplaceKeepsSlot(w: World, key: Key, k: Key)
    requires MayReplace(w, key) && k in w.slots && SlotOk(w, k)
    ensures SlotOk(Replace(w, key), k)
  {
  }

  lemma ReplaceKeepsState(w: World, key: Key, r: RunId)
    requires MayReplace(w, key) && r < |w.states| && StateOk(w, r) && AccountedFor(w, r)
    ensures var v := Replace(w, key); r < |v.states| && StateOk(v, r) && AccountedFor(v, r)
  {
    var v := Replace(w, key);
    var behind, q := w.slots[key].running, w.slots[key].queued.value.state;
    assert (behind, Moved(q)) in v.decided;
    if IsDecided(w, r) {
      var e :| (r, e) in w.decided;
      assert (r, e) in v.decided;
    }
  }

  lemma ReplaceKeepsDecided(w: World, key: Key, r: RunId, e: End)
    requires MayReplace(w, key) && ((r, e) in w.decided ==> DecidedEndOk(w, r, e))
    ensures (r, e) in Replace(w, key).decided ==> DecidedEndOk(Replace(w, key), r, e)
  {
  }

  lemma ReplaceLater(w: World, key: Key)
    requires MayReplace(w, key)
    ensures Later(w, Replace(w, key))
  {
  }

  lemma ReplaceKeepsRest(w: World, key: Key)
    requires MayReplace(w, key) && StoresOk(w) && WaitsOk(w) && NoRing(w)
    ensures var v := Replace(w, key); StoresOk(v) && WaitsOk(v) && NoRing(v)
  {
    hide StoresOk, NoRing, Later;
    var v := Replace(w, key);
    ReplaceLater(w, key);
    StoresStand(w, v);
    WaitsStand(w, v);
    SlotChanged(w, v, key);
  }

  lemma ReplaceKeeps(w: World, key: Key)
    requires Inv(w) && MayReplace(w, key) && SlotIds(w, key)
    ensures Inv(Replace(w, key))
  {
    hide SlotOk, StateOk, AccountedFor, DecidedEndOk, StoresOk, WaitsOk, NoRing;
    var v := Replace(w, key);
    forall k | k in v.slots
      ensures SlotOk(v, k)
    {
      ReplaceKeepsSlot(w, key, k);
    }
    forall r | 0 <= r < |v.states|
      ensures StateOk(v, r) && AccountedFor(v, r)
    {
      ReplaceKeepsState(w, key, r);
    }
    forall r, e | (r, e) in v.decided
      ensures DecidedEndOk(v, r, e)
    {
      ReplaceKeepsDecided(w, key, r, e);
    }
    ReplaceKeepsRest(w, key);
  }

  lemma NewSlotKeepsEach(w: World, key: Key, k: Key, r: RunId, e: End)
    requires key !in w.slots
    ensures var v := NewSlot(w, key);
      && (k == key || (k in w.slots && SlotOk(w, k)) ==> SlotOk(v, k))
      && (r < |v.states| && (r < |w.states| ==> StateOk(w, r) && AccountedFor(w, r))
          ==> StateOk(v, r) && AccountedFor(v, r))
      && (DecidedEndOk(w, r, e) ==> DecidedEndOk(v, r, e))
  {
  }

  lemma NewSlotLater(w: World, key: Key)
    requires key !in w.slots
    ensures Later(w, NewSlot(w, key))
  {
  }

  lemma NewSlotKeeps(w: World, key: Key)
    requires Inv(w) && key !in w.slots
    ensures Inv(NewSlot(w, key))
  {
    hide SlotOk, StateOk, AccountedFor, DecidedEndOk, StoresOk, NoRing, Later;
    var v := NewSlot(w, key);
    forall k | k in v.slots
      ensures SlotOk(v, k)
    {
      NewSlotKeepsEach(w, key, k, 0, Done(Dropped));
    }
    forall r | 0 <= r < |v.states|
      ensures StateOk(v, r) && AccountedFor(v, r)
    {
      NewSlotKeepsEach(w, key, key, r, Done(Dropped));
    }
    forall r, e | (r, e) in v.decided
      ensures DecidedEndOk(v, r, e)
    {
      assert DecidedEndOk(w, r, e);
      DecidedOf(w, r, e);
      NewSlotKeepsEach(w, key, key, r, e);
    }
    NewSlotLater(w, key);
    StoresStand(w, v);
    WaitsStand(w, v);
    SlotChanged(w, v, key);
  }

  lemma AskNoRing(w: World, me: RunId, key: Key)
    requires NoRing(w) && key in w.slots && !ClosesRing(w.slots, w.waits, me, key)
    ensures NoRing(w.(waits := w.waits[me := key]))
  {
    var g, x := Edges(w.slots, w.waits), w.slots[key].running;
    assert Edges(w.slots, w.waits[me := key]) == g[me := x];
    assert !Reaches(g, x, me);
    hide Reaches, Acyclic, Edges;
    AddEdge(g, me, x);
  }

  lemma AskWaits(w: World, me: RunId, key: Key, state: RunId)
    requires WaitsOk(w) && HasThread(w, me) && state < |w.states| && w.states[state].key == key
    ensures WaitsOk(w.(waits := w.waits[me := key], blocked := w.blocked[me := state]))
  {
  }

  lemma AskKeeps(w: World, me: Caller, key: Key, state: RunId)
    requires Inv(w) && key in w.slots && state < |w.states| && w.states[state].key == key
    requires me.Some? ==> HasThread(w, me.value)
    ensures Inv(Ask(w, me, key, state).0)
  {
    hide SlotOk, StateOk, AccountedFor, DecidedEndOk, StoresOk, SlotsOk, StatesOk, Accounted, DecidedOk,
      WaitsOk, Acyclic, Edges, ClosesRing;
    var v := Ask(w, me, key, state).0;
    if me.Some? && !ClosesRing(w.slots, w.waits, me.value, key) {
      WaitsOnly(w, v);
      AskNoRing(w, me.value, key);
      AskWaits(w, me.value, key, state);
    }
  }

  /** A step that moves no slot, State, decided end or store keeps what is said of them. */
  lemma WaitsOnly(w: World, v: World)
    requires Inv(w) && v == w.(waits := v.waits, blocked := v.blocked)
    ensures SlotsOk(v) && StatesOk(v) && Accounted(v) && DecidedOk(v) && StoresOk(v)
  {
    hide NoRing, WaitsOk;
    forall k | k in v.slots
      ensures SlotOk(v, k)
    {
      assert SlotOk(w, k);
    }
    forall r | 0 <= r < |v.states|
      ensures StateOk(v, r) && AccountedFor(v, r)
    {
      assert StateOk(w, r) && AccountedFor(w, r);
    }
    forall r, e | (r, e) in v.decided
      ensures DecidedEndOk(v, r, e)
    {
      assert DecidedEndOk(w, r, e);
    }
  }

  lemma StartKeeps(w: World, me: Caller, want: Want, key: Key, epoch: nat, found: Found)
    requires Inv(w) && Enabled(w, DoStart(me, want, key, epoch, found))
    requires key in w.slots ==> SlotIds(w, key)
    ensures Inv(Start(w, me, want, key, epoch, found).0)
  {
    hide Inv, Queue, Replace, Ask;
    if key in w.slots {
      var slot := w.slots[key];
      SlotOf(w, key);
      if slot.overtaken.None? && (want.Cold? || want.Any? || (want.Changed? && found.sees)) {
        AskKeeps(w, me, key, slot.running);
      } else if want.Changed? && slot.overtaken.None? && !found.backoff {
        if found.known {
          StartInPlace(w, me, key, epoch);
        }
      } else {
        StartBehind(w, me, key, epoch, want.Forced?);
      }
    } else if (want.Cold? && found.recorded) || (!want.Forced? && found.backoff) || !found.known {
    } else {
      StartNew(w, me, key);
    }
  }

  lemma StartNew(w: World, me: Caller, key: Key)
    requires Inv(w) && key !in w.slots && (me.Some? ==> HasThread(w, me.value))
    ensures Inv(Ask(NewSlot(w, key), me, key, |w.states|).0)
  {
    hide Inv, Ask;
    NewSlotKeeps(w, key);
    AskKeeps(NewSlot(w, key), me, key, |w.states|);
  }

  lemma StartBehind(w: World, me: Caller, key: Key, epoch: nat, forced: bool)
    requires Inv(w) && key in w.slots && (me.Some? ==> HasThread(w, me.value))
    ensures var v := Queue(w, key, epoch, forced); Inv(Ask(v, me, key, v.slots[key].queued.value.state).0)
  {
    hide Inv, Ask, Later;
    SlotOf(w, key);
    QueueKeeps(w, key, epoch, forced);
    var v := Queue(w, key, epoch, forced);
    SlotOf(v, key);
    AskKeeps(v, me, key, v.slots[key].queued.value.state);
  }

  lemma StartInPlace(w: World, me: Caller, key: Key, epoch: nat)
    requires Inv(w) && key in w.slots && SlotOk(w, key) && (me.Some? ==> HasThread(w, me.value))
    requires w.slots[key].overtaken.None? && w.states[w.slots[key].running].stage.Live?
    ensures var u := Queue(w, key, epoch, false);
      && SlotIds(u, key)
      && (var v := Replace(u, key); key in v.slots && Inv(Ask(v, me, key, v.slots[key].running).0))
  {
    hide Inv, Ask;
    QueueKeeps(w, key, epoch, false);
    var u := Queue(w, key, epoch, false);
    SlotOf(u, key);
    ReplaceKeeps(u, key);
    var v := Replace(u, key);
    SlotOf(v, key);
    assert me.Some? ==> HasThread(v, me.value);
    AskKeeps(v, me, key, v.slots[key].running);
  }

  predicate MayMark(w: World, key: Key, mark: Overtaken) {
    key in w.slots && SlotOk(w, key) && (mark.OvertakenAgain? ==> w.slots[key].queued.Some?)
  }

  lemma MarkKeepsEach(w: World, key: Key, mark: Overtaken, k: Key, r: RunId, e: End)
    requires MayMark(w, key, mark)
    ensures var v := Mark(w, key, mark);
      && (k in w.slots && SlotOk(w, k) ==> SlotOk(v, k))
      && (r < |w.states| && StateOk(w, r) && AccountedFor(w, r) ==> StateOk(v, r) && AccountedFor(v, r))
      && (DecidedEndOk(w, r, e) ==> DecidedEndOk(v, r, e))
  {
  }

  lemma MarkLater(w: World, key: Key, mark: Overtaken)
    requires MayMark(w, key, mark)
    ensures Later(w, Mark(w, key, mark))
  {
  }

  lemma MarkKeeps(w: World, key: Key, mark: Overtaken)
    requires Inv(w) && MayMark(w, key, mark) && key in w.slots && SlotIds(w, key)
    ensures Inv(Mark(w, key, mark))
  {
    hide SlotOk, StateOk, AccountedFor, DecidedEndOk, StoresOk, WaitsOk, NoRing, Later, MayMark;
    var v := Mark(w, key, mark);
    forall k | k in v.slots
      ensures SlotOk(v, k)
    {
      MarkKeepsEach(w, key, mark, k, 0, Done(Dropped));
    }
    forall r | 0 <= r < |v.states|
      ensures StateOk(v, r) && AccountedFor(v, r)
    {
      MarkKeepsEach(w, key, mark, key, r, Done(Dropped));
    }
    forall r, e | (r, e) in v.decided
      ensures DecidedEndOk(v, r, e)
    {
      assert DecidedEndOk(w, r, e);
      MarkKeepsEach(w, key, mark, key, r, e);
    }
    MarkLater(w, key, mark);
    StoresStand(w, v);
    WaitsStand(w, v);
    SlotChanged(w, v, key);
  }

  lemma SupersedeKeeps(w: World, key: Key, how: Overtake, epoch: nat)
    requires Inv(w) && (key in w.slots ==> SlotIds(w, key))
    ensures Inv(Supersede(w, key, how, epoch))
  {
    hide Inv, Later;
    if key in w.slots {
      SlotOf(w, key);
      var u := if how.Again? then Queue(w, key, epoch, false) else w;
      if how.Again? {
        QueueKeeps(w, key, epoch, false);
      }
      SlotOf(u, key);
      MarkKeeps(u, key, if how.Again? then OvertakenAgain else OvertakenGone(epoch));
    }
  }

  // ---- A run settles ----------------------------------------------------

  predicate MaySettle(w: World, r: RunId) {
    && r < |w.states| && w.states[r].stage.Live? && StateOk(w, r)
    && (w.states[r].key in w.slots ==> SlotOk(w, w.states[r].key))
  }

  predicate MaySettleHere(w: World, r: RunId) {
    MaySettle(w, r) && w.states[r].key in w.slots && w.slots[w.states[r].key].running == r
  }

  /** What `settle` decides for the run in flight. */
  predicate EndMay(w: World, r: RunId, end: End) {
    && MaySettleHere(w, r)
    && (var slot := w.slots[w.states[r].key];
        && (end == Done(Stored) ==> slot.overtaken.None?)
        && (end.Moved? ==> slot.queued.Some? && end.next == slot.queued.value.state))
  }

  lemma AwayKeepsEach(w: World, r: RunId, k: Key, s: RunId, e: End)
    requires MaySettle(w, r) && !MaySettleHere(w, r)
    ensures var v := Conclude(w, r, Done(Dropped));
      && (k in w.slots && SlotOk(w, k) ==> SlotOk(v, k))
      && (s < |w.states| && StateOk(w, s) && AccountedFor(w, s) ==> StateOk(v, s) && AccountedFor(v, s))
      && (((s, e) in w.decided ==> DecidedEndOk(w, s, e)) ==> ((s, e) in v.decided ==> DecidedEndOk(v, s, e)))
  {
    var v := Conclude(w, r, Done(Dropped));
    assert (r, Done(Dropped)) in v.decided;
  }

  lemma NextKeepsSlot(w: World, r: RunId, end: End, k: Key)
    requires EndMay(w, r, end) && w.slots[w.states[r].key].queued.Some? && k in w.slots && SlotOk(w, k)
    ensures SlotOk(SettleNext(w, r, end), k)
  {
  }

  lemma NextKeepsState(w: World, r: RunId, end: End, s: RunId)
    requires EndMay(w, r, end) && w.slots[w.states[r].key].queued.Some?
    requires s < |w.states| && StateOk(w, s) && AccountedFor(w, s)
    ensures var v := SettleNext(w, r, end); s < |v.states| && StateOk(v, s) && AccountedFor(v, s)
  {
    assert (r, end) in SettleNext(w, r, end).decided;
  }

  lemma NextKeepsDecided(w: World, r: RunId, end: End, s: RunId, e: End)
    requires EndMay(w, r, end) && w.slots[w.states[r].key].queued.Some?
    requires (s, e) in w.decided ==> DecidedEndOk(w, s, e)
    ensures var v := SettleNext(w, r, end); (s, e) in v.decided ==> DecidedEndOk(v, s, e)
  {
  }

  lemma LastKeepsSlot(w: World, r: RunId, end: End, k: Key)
    requires EndMay(w, r, end) && k in w.slots && SlotOk(w, k)
    ensures var v := SettleLast(w, r, end); k in v.slots ==> SlotOk(v, k)
  {
    var v, slot := SettleLast(w, r, end), w.slots[k];
    if k != w.states[r].key {
      assert v.slots[k] == slot && v.states[slot.running] == w.states[slot.running];
      assert slot.queued.Some? ==> v.states[slot.queued.value.state] == w.states[slot.queued.value.state];
      hide SettleLast, EndMay;
    }
  }

  lemma LastAccounts(w: World, r: RunId, end: End, s: RunId)
    requires EndMay(w, r, end) && s < |w.states| && AccountedFor(w, s)
    ensures var v := SettleLast(w, r, end); s < |v.states| && AccountedFor(v, s)
  {
    hide StateOk;
    var v := SettleLast(w, r, end);
    assert (r, end) in v.decided;
    if IsQueued(w, s) && w.states[s].key == w.states[r].key {
      assert (s, Done(Dropped)) in v.decided;
    }
  }

  lemma LastKeepsDecided(w: World, r: RunId, end: End, s: RunId, e: End)
    requires EndMay(w, r, end) && ((s, e) in w.decided ==> DecidedEndOk(w, s, e))
    ensures var v := SettleLast(w, r, end); (s, e) in v.decided ==> DecidedEndOk(v, s, e)
  {
  }

  lemma ConcludeLater(w: World, r: RunId, end: End)
    requires r < |w.states| && w.states[r].stage.Live?
    ensures Later(w, Conclude(w, r, end))
  {
  }

  /** A run behind another leaves its place. */
  lemma StageLater(w: World, v: World, q: RunId, stage: Stage)
    requires q < |w.states| && w.states[q].stage.Behind? && v.states == SetStage(w, q, stage).states
    ensures Later(w, v)
  {
  }

  /** After `Conclude`, settling only moves the slot and the run queued in it. */
  lemma SettleLater(w: World, r: RunId, end: End)
    requires EndMay(w, r, end)
    ensures Later(w, SettleLast(w, r, end)) && Later(Conclude(w, r, end), SettleLast(w, r, end))
    ensures w.slots[w.states[r].key].queued.Some? ==>
      Later(w, SettleNext(w, r, end)) && Later(Conclude(w, r, end), SettleNext(w, r, end))
  {
    var u := Conclude(w, r, end);
    ConcludeLater(w, r, end);
    var queued := w.slots[w.states[r].key].queued;
    if queued.Some? {
      var q := queued.value.state;
      assert u.states[q].stage.Behind?;
      hide Later;
      StageLater(u, SettleLast(w, r, end), q, Discarded);
      LaterTransitive(w, u, SettleLast(w, r, end));
      StageLater(u, SettleNext(w, r, end), q, Starting);
      LaterTransitive(w, u, SettleNext(w, r, end));
    }
  }

  lemma LastKeepsState(w: World, r: RunId, end: End, s: RunId)
    requires EndMay(w, r, end) && s < |w.states| && StateOk(w, s)
    ensures var v := SettleLast(w, r, end); s < |v.states| && StateOk(v, s)
  {
    var v := SettleLast(w, r, end);
    if w.states[s].end.Some? {
      SettleLater(w, r, end);
      EndStands(w, v, s, w.states[s].end.value);
    }
    hide EndOk, Later;
  }

  /** A run that stores is later than every run of its instance that did. */
  lemma ConcludeStores(w: World, r: RunId, end: End)
    requires StoresOk(w) && MaySettle(w, r) && !w.states[r].stored
    requires forall i | 0 <= i < |w.stores| && w.stores[i] < |w.states| && w.states[w.stores[i]].key == w.states[r].key ::
      w.stores[i] < r
    ensures StoresOk(Conclude(w, r, end))
  {
    hide StateOk, SlotOk;
    var v := Conclude(w, r, end);
    forall i, j | 0 <= i < j < |v.stores| && v.states[v.stores[i]].key == v.states[v.stores[j]].key
      ensures v.stores[i] < v.stores[j]
    {
      assert w.states[v.stores[i]].key == w.states[v.stores[j]].key;
    }
    forall s | 0 <= s < |v.states| && v.states[s].stored
      ensures s in v.stores
    {
      assert w.states[s].stored || s == r;
      if s == r {
        assert v.stores[|v.stores| - 1] == r;
      }
    }
  }

  /** A run that stored is earlier than the run in flight of its instance. */
  lemma StoredBefore(w: World, r: RunId, i: nat)
    requires Inv(w) && MaySettleHere(w, r)
    requires i < |w.stores| && w.stores[i] < |w.states| && w.states[w.stores[i]].key == w.states[r].key
    ensures w.stores[i] < r
  {
    assert w.states[w.stores[i]].stored by {
      hide StateOk, SlotOk, NoRing, WaitsOk, DecidedOk;
    }
    hide Inv;
    StateOf(w, w.stores[i]);
  }

  lemma SettleStores(w: World, r: RunId, end: End)
    requires EndMay(w, r, end) && StoresOk(Conclude(w, r, end))
    ensures StoresOk(SettleLast(w, r, end))
    ensures w.slots[w.states[r].key].queued.Some? ==> StoresOk(SettleNext(w, r, end))
  {
    var u := Conclude(w, r, end);
    SettleLater(w, r, end);
    hide StoresOk, Later;
    StoresStand(u, SettleLast(w, r, end));
    if w.slots[w.states[r].key].queued.Some? {
      StoresStand(u, SettleNext(w, r, end));
    }
  }

  lemma SettleConcludes(w: World, r: RunId, end: End)
    requires Inv(w) && MaySettle(w, r) && (end == Done(Stored) ==> MaySettleHere(w, r))
    ensures StoresOk(Conclude(w, r, end))
  {
    assert StoresOk(w);
    StateOf(w, r);
    if end == Done(Stored) {
      hide StoresOk, Inv;
      forall i | 0 <= i < |w.stores| && w.stores[i] < |w.states| && w.states[w.stores[i]].key == w.states[r].key
        ensures w.stores[i] < r
      {
        StoredBefore(w, r, i);
      }
      ConcludeStores(w, r, end);
    } else {
      hide StoresOk, Later, Inv;
      ConcludeLater(w, r, end);
      StoresStand(w, Conclude(w, r, end));
    }
  }

  lemma AwayKeeps(w: World, r: RunId)
    requires Inv(w) && MaySettle(w, r) && !MaySettleHere(w, r) && r < |w.states|
    ensures Inv(Conclude(w, r, Done(Dropped)))
  {
    hide MaySettle, MaySettleHere, SlotOk, StateOk, AccountedFor, DecidedEndOk, StoresOk, WaitsOk, NoRing, Later;
    var v := Conclude(w, r, Done(Dropped));
    forall k | k in v.slots
      ensures SlotOk(v, k)
    {
      AwayKeepsEach(w, r, k, 0, Done(Dropped));
    }
    forall s | 0 <= s < |v.states|
      ensures StateOk(v, s) && AccountedFor(v, s)
    {
      AwayKeepsEach(w, r, w.states[r].key, s, Done(Dropped));
    }
    forall s, e | (s, e) in v.decided
      ensures DecidedEndOk(v, s, e)
    {
      AwayKeepsEach(w, r, w.states[r].key, s, e);
    }
    SettleConcludes(w, r, Done(Dropped));
    assert Later(w, v) by { ConcludeLaterHere(w, r, Done(Dropped)); }
    WaitsStand(w, v);
    SlotChanged(w, v, w.states[r].key);
  }

  lemma ConcludeLaterHere(w: World, r: RunId, end: End)
    requires MaySettle(w, r)
    ensures r < |w.states| && Later(w, Conclude(w, r, end))
  {
    ConcludeLater(w, r, end);
  }

  lemma NextKeeps(w: World, r: RunId, end: End)
    requires Inv(w) && EndMay(w, r, end)
    requires r < |w.states| && w.states[r].key in w.slots
    requires SlotIds(w, w.states[r].key) && w.slots[w.states[r].key].queued.Some?
    ensures Inv(SettleNext(w, r, end))
  {
    var v := SettleNext(w, r, end);
    var key := w.states[r].key;
    assert !HasThread(w, w.slots[key].queued.value.state);
    SettleConcludes(w, r, end);
    hide EndMay, SlotOk, StateOk, AccountedFor, DecidedEndOk, StoresOk, WaitsOk, NoRing, Later, SettleNext;
    forall k | k in v.slots
      ensures SlotOk(v, k)
    {
      assert k in w.slots by { NextSlots(w, r, end); }
      NextKeepsSlot(w, r, end, k);
    }
    forall s | 0 <= s < |v.states|
      ensures StateOk(v, s) && AccountedFor(v, s)
    {
      NextSlots(w, r, end);
      NextKeepsState(w, r, end, s);
    }
    forall s, e | (s, e) in v.decided
      ensures DecidedEndOk(v, s, e)
    {
      NextKeepsDecided(w, r, end, s, e);
    }
    SettleStores(w, r, end);
    SettleLater(w, r, end);
    NextSlots(w, r, end);
    WaitsStand(w, v);
    NextNoRing(w, v, key);
  }

  /** What promoting the queued run leaves as it was. */
  lemma NextSlots(w: World, r: RunId, end: End)
    requires r < |w.states| && w.states[r].key in w.slots
    requires SlotIds(w, w.states[r].key) && w.slots[w.states[r].key].queued.Some?
    ensures var v := SettleNext(w, r, end); var key := w.states[r].key;
      && v.waits == w.waits && v.blocked == w.blocked && v.panicked == w.panicked && |v.states| == |w.states|
      && v.slots == w.slots[key := Slot(w.slots[key].queued.value.state, None, None)]
  {
  }

  lemma NextNoRing(w: World, v: World, key: Key)
    requires NoRing(w) && WaitsOk(w) && v.waits == w.waits && key in w.slots && w.slots[key].queued.Some?
    requires v.slots == w.slots[key := Slot(w.slots[key].queued.value.state, None, None)]
    requires !HasThread(w, w.slots[key].queued.value.state)
    ensures NoRing(v)
  {
    hide NoRing;
    SlotChanged(w, v, key);
  }

  lemma LastKeeps(w: World, r: RunId, end: End)
    requires Inv(w) && EndMay(w, r, end)
    requires r < |w.states| && w.states[r].key in w.slots && SlotIds(w, w.states[r].key)
    ensures Inv(SettleLast(w, r, end))
  {
    var v := SettleLast(w, r, end);
    var key := w.states[r].key;
    SettleConcludes(w, r, end);
    hide EndMay, SlotOk, StateOk, AccountedFor, DecidedEndOk, StoresOk, WaitsOk, NoRing, Later, SettleLast;
    LastSlots(w, r, end);
    forall k | k in v.slots
      ensures SlotOk(v, k)
    {
      LastKeepsSlot(w, r, end, k);
    }
    forall s | 0 <= s < |v.states|
      ensures StateOk(v, s) && AccountedFor(v, s)
    {
      LastKeepsState(w, r, end, s);
      LastAccounts(w, r, end, s);
    }
    forall s, e | (s, e) in v.decided
      ensures DecidedEndOk(v, s, e)
    {
      LastKeepsDecided(w, r, end, s, e);
    }
    SettleStores(w, r, end);
    SettleLater(w, r, end);
    WaitsStand(w, v);
    SlotChanged(w, v, key);
  }

  /** What letting the slot go leaves as it was. */
  lemma LastSlots(w: World, r: RunId, end: End)
    requires r < |w.states| && w.states[r].key in w.slots && SlotIds(w, w.states[r].key)
    ensures var v := SettleLast(w, r, end);
      && v.waits == w.waits && v.blocked == w.blocked && v.panicked == w.panicked && |v.states| == |w.states|
      && v.slots == w.slots - {w.states[r].key}
  {
  }

  lemma SettleKeeps(w: World, r: RunId, result: Option<Outcome>, ahead: Ahead)
    requires Inv(w) && Enabled(w, DoSettle(r, result, ahead)) && Sound(w, DoSettle(r, result, ahead))
    ensures Inv(Settle(w, r, result, ahead))
  {
    hide Inv, SettleNext, SettleLast, Conclude;
    StateOf(w, r);
    var key := w.states[r].key;
    if key in w.slots {
      SlotOf(w, key);
    }
    assert MaySettle(w, r);
    if MaySettleHere(w, r) {
      var end := EndOf(w.slots[key], result);
      assert EndMay(w, r, end);
      if RunsNext(w.slots[key], result, ahead) {
        NextKeeps(w, r, end);
      } else {
        LastKeeps(w, r, end);
      }
    } else {
      AwayKeeps(w, r);
    }
  }

  // ---- Steps outside the lock -------------------------------------------

  predicate MayLaunch(w: World, r: RunId) {
    r < |w.states| && w.states[r].stage.Starting? && StateOk(w, r)
  }

  lemma LaunchKeepsEach(w: World, r: RunId, k: Key, s: RunId, e: End)
    requires MayLaunch(w, r)
    ensures var v := Launch(w, r);
      && (k in w.slots && SlotOk(w, k) ==> SlotOk(v, k))
      && (s < |w.states| && StateOk(w, s) && AccountedFor(w, s) ==> StateOk(v, s) && AccountedFor(v, s))
      && (DecidedEndOk(w, s, e) ==> DecidedEndOk(v, s, e))
      && LaterHere(w, v, s)
  {
  }

  /** `Later` at one State, if there is one. */
  predicate LaterHere(w: World, v: World, s: RunId) {
    |w.states| == |v.states| && (s < |w.states| ==> LaterState(w, v, s) && v.states[s].stored == w.states[s].stored)
  }

  lemma LaunchKeeps(w: World, r: RunId)
    requires Inv(w) && r < |w.states| && w.states[r].stage.Starting?
    ensures Inv(Launch(w, r))
  {
    hide SlotOk, StateOk, AccountedFor, DecidedEndOk, StoresOk, WaitsOk, NoRing, LaterState;
    var v := Launch(w, r);
    StateOf(w, r);
    forall k | k in v.slots
      ensures SlotOk(v, k)
    {
      LaunchKeepsEach(w, r, k, 0, Done(Dropped));
    }
    forall s | 0 <= s < |v.states|
      ensures StateOk(v, s) && AccountedFor(v, s) && LaterHere(w, v, s) && LaterState(w, v, s)
    {
      LaunchKeepsEach(w, r, w.states[r].key, s, Done(Dropped));
    }
    forall s, e | (s, e) in v.decided
      ensures DecidedEndOk(v, s, e)
    {
      assert DecidedEndOk(w, s, e);
      LaunchKeepsEach(w, r, w.states[r].key, s, e);
    }
    StoresStand(w, v);
    WaitsStand(w, v);
    SlotChanged(w, v, w.states[r].key);
  }

  lemma FinishKeepsEach(w: World, r: RunId, end: End, k: Key, s: RunId, e: End)
    requires (r, end) in w.decided && DecidedEndOk(w, r, end)
    ensures var v := Finish(w, r, end);
      && (k in w.slots && SlotOk(w, k) ==> SlotOk(v, k))
      && (s < |w.states| && StateOk(w, s) && AccountedFor(w, s) ==> StateOk(v, s) && AccountedFor(v, s))
      && (DecidedEndOk(w, s, e) ==> DecidedEndOk(v, s, e))
      && LaterHere(w, v, s)
  {
    var v := Finish(w, r, end);
    if s != r && IsDecided(w, s) {
      var e :| (s, e) in w.decided;
      assert (s, e) in v.decided;
    }
  }

  lemma FinishKeeps(w: World, r: RunId, end: End)
    requires Inv(w) && (r, end) in w.decided && r < |w.states|
    ensures Inv(Finish(w, r, end))
  {
    hide SlotOk, StateOk, AccountedFor, DecidedEndOk, StoresOk, WaitsOk, NoRing, LaterState;
    var v := Finish(w, r, end);
    assert DecidedEndOk(w, r, end);
    forall k | k in v.slots
      ensures SlotOk(v, k)
    {
      FinishKeepsEach(w, r, end, k, 0, Done(Dropped));
    }
    forall s | 0 <= s < |v.states|
      ensures StateOk(v, s) && AccountedFor(v, s) && LaterHere(w, v, s) && LaterState(w, v, s)
    {
      FinishKeepsEach(w, r, end, w.states[r].key, s, Done(Dropped));
    }
    forall s, e | (s, e) in v.decided
      ensures DecidedEndOk(v, s, e)
    {
      assert DecidedEndOk(w, s, e);
      FinishKeepsEach(w, r, end, w.states[r].key, s, e);
    }
    StoresStand(w, v);
    WaitsStand(w, v);
    SlotChanged(w, v, w.states[r].key);
  }

  lemma FollowWaits(w: World, me: RunId)
    requires WaitsOk(w) && Enabled(w, DoFollow(me)) && StateOk(w, w.blocked[me])
    ensures WaitsOk(Follow(w, me))
  {
    hide HasThread;
    var v := Follow(w, me);
    forall r | r in v.waits
      ensures HasThread(v, r) && v.blocked[r] < |v.states| && v.states[v.blocked[r]].key == v.waits[r]
    {
      assert HasThread(w, r);
      ThreadStands(w, v, r);
    }
  }

  lemma ThreadStands(w: World, v: World, r: RunId)
    requires HasThread(w, r) && v == w.(waits := v.waits, blocked := v.blocked)
    ensures HasThread(v, r)
  {
  }

  /** A step that touches the waits alone. */
  lemma WaitsStep(w: World, v: World)
    requires Inv(w) && v == w.(waits := v.waits, blocked := v.blocked)
    requires WaitsOk(w) && NoRing(w) ==> WaitsOk(v) && NoRing(v)
    ensures Inv(v)
  {
    hide SlotsOk, StatesOk, Accounted, DecidedOk, StoresOk, NoRing, WaitsOk;
    WaitsOnly(w, v);
  }

  lemma FollowKeeps(w: World, me: RunId)
    requires Inv(w) && Enabled(w, DoFollow(me))
    ensures Inv(Follow(w, me))
  {
    hide Inv, NoRing, WaitsOk, StateOk;
    StateOf(w, w.blocked[me]);
    var v := Follow(w, me);
    if WaitsOk(w) && NoRing(w) {
      FollowWaits(w, me);
      FollowNoRing(w, v);
    }
    WaitsStep(w, v);
  }

  lemma FollowNoRing(w: World, v: World)
    requires NoRing(w) && v.slots == w.slots && v.waits == w.waits
    ensures NoRing(v)
  {
  }

  lemma ReturnWaits(w: World, me: RunId)
    requires WaitsOk(w)
    ensures WaitsOk(Return(w, me))
  {
    hide HasThread;
    var v := Return(w, me);
    forall r | r in v.waits
      ensures HasThread(v, r) && v.blocked[r] < |v.states| && v.states[v.blocked[r]].key == v.waits[r]
    {
      assert HasThread(w, r);
      ThreadStands(w, v, r);
    }
  }

  /** A wait that goes draws no edge. */
  lemma FewerEdges(slots: map<Key, Slot>, waits: map<RunId, Key>, me: RunId, r: RunId)
    requires r in Edges(slots, waits - {me})
    ensures r in Edges(slots, waits) && Edges(slots, waits)[r] == Edges(slots, waits - {me})[r]
  {
  }

  lemma ReturnNoRing(w: World, me: RunId)
    requires NoRing(w)
    ensures NoRing(Return(w, me))
  {
    hide Edges, Acyclic;
    var v := Return(w, me);
    forall r | r in Edges(v.slots, v.waits)
      ensures r in Edges(w.slots, w.waits) && Edges(w.slots, w.waits)[r] == Edges(v.slots, v.waits)[r]
    {
      FewerEdges(w.slots, w.waits, me, r);
    }
    Redraw(Edges(w.slots, w.waits), Edges(v.slots, v.waits));
  }

  lemma ReturnKeeps(w: World, me: RunId)
    requires Inv(w)
    ensures Inv(Return(w, me))
  {
    hide Inv, NoRing, WaitsOk;
    if WaitsOk(w) && NoRing(w) {
      ReturnWaits(w, me);
      ReturnNoRing(w, me);
    }
    WaitsStep(w, Return(w, me));
  }

  // ---- Every reachable state --------------------------------------------

  /** The coordinator's expects do not fail, and every step keeps the invariant. */
  lemma StepKeeps(w: World, a: Action)
    requires Inv(w) && Enabled(w, a)
    ensures Sound(w, a) && Inv(Step(w, a))
  {
    SoundAlways(w, a);
    hide Inv, Start, Supersede, Settle, Launch, Finish, Follow, Return;
    match a
    case DoStart(me, want, key, epoch, found) => StartKeeps(w, me, want, key, epoch, found);
    case DoSupersede(key, how, epoch) => SupersedeKeeps(w, key, how, epoch);
    case DoSettle(r, result, ahead) => SettleKeeps(w, r, result, ahead);
    case DoLaunch(r) => LaunchKeeps(w, r);
    case DoFinish(r, end) => FinishKeeps(w, r, end);
    case DoFollow(me) => FollowKeeps(w, me);
    case DoReturn(me) => ReturnKeeps(w, me);
  }

  lemma SoundAlways(w: World, a: Action)
    requires Inv(w) && Enabled(w, a)
    ensures Sound(w, a)
  {
    hide Inv;
    match a
    case DoStart(me, want, key, epoch, found) => if key in w.slots { SlotOf(w, key); }
    case DoSupersede(key, how, epoch) => if key in w.slots { SlotOf(w, key); }
    case DoSettle(r, result, ahead) => if w.states[r].key in w.slots { SlotOf(w, w.states[r].key); }
    case DoLaunch(r) =>
    case DoFinish(r, end) => DecidedOf(w, r, end);
    case DoFollow(me) =>
    case DoReturn(me) =>
  }

  lemma InitInv()
    ensures Inv(INIT)
  {
    assert Edges(INIT.slots, INIT.waits) == map[];
  }

  lemma {:induction false} LeadsKeeps(w: World, trace: seq<Action>, v: World)
    requires Inv(w) && Leads(w, trace, v)
    ensures Inv(v)
    decreases |trace|
  {
    hide Inv, Step;
    if trace != [] {
      StepKeeps(w, trace[0]);
      LeadsKeeps(Step(w, trace[0]), trace[1..], v);
    }
  }

  lemma ReachableInv(w: World)
    requires Reachable(w)
    ensures Inv(w)
  {
    InitInv();
    hide Inv, Leads;
    var trace :| Leads(INIT, trace, w);
    LeadsKeeps(INIT, trace, w);
  }
}
