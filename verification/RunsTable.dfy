/** `Runs` of src/run.rs: the table of slots and waits changed in place. Each
    method does what one step of the transition system says, and keeps what every
    reachable state satisfies. */
module RunsTable {
  import opened Prelude
  import opened WaitGraph
  import opened RunInvariant
  import T = RunTable
  import opened RunTheorems

  /** Paths from one node agree as far as the shorter goes. */
  lemma {:induction false} PathsAgree(g: Graph, p: seq<nat>, q: seq<nat>)
    requires Path(g, p) && Path(g, q) && p[0] == q[0] && |p| <= |q|
    ensures p == q[..|p|]
    decreases |p|
  {
    if |p| > 1 {
      var n := |p| - 1;
      PathSlice(g, p, 0, n);
      assert p[0..n] == p[..n];
      PathsAgree(g, p[..n], q);
      assert p[n - 1] == q[..n][n - 1] == q[n - 1];
    }
  }

  /** A path to a node with no edge passes every node its start reaches. */
  lemma SinkPathPasses(g: Graph, p: seq<nat>, me: nat)
    requires Path(g, p) && p[|p| - 1] !in g && me !in p
    ensures !Reaches(g, p[0], me)
  {
    if q :| PathBetween(g, q, p[0], me) {
      if |q| <= |p| {
        PathsAgree(g, q, p);
      } else {
        PathsAgree(g, p, q);
      }
    }
  }

  class Runs {
    var slots: map<T.Key, T.Slot>
    var waits: map<T.RunId, T.Key>
    /** Every State made, by its id, with its end. */
    var states: seq<T.State>
    /** The States waiting threads hold, the ends threads are about to write, and
        the stores made: what is not in the table. */
    ghost var blocked: map<T.RunId, T.RunId>
    ghost var decided: set<(T.RunId, T.End)>
    ghost var stores: seq<T.RunId>

    ghost function View(): T.World
      reads this
    {
      T.World(slots, waits, blocked, states, decided, stores, false)
    }

    constructor ()
      ensures View() == T.INIT && Inv(View())
    {
      slots, waits, states := map[], map[], [];
      blocked, decided, stores := map[], {}, [];
      new;
      InitInv();
    }

    /** `Table::ask`: the walk over the waits, in as many turns as there are waits
        and one. It is exact: it finds the caller if and only if a run waiting
        from `key` onwards comes round to it. */
    method Ask(me: T.Caller, key: T.Key, ghost state: T.RunId) returns (asked: T.Asked)
      requires Acyclic(T.Edges(slots, waits))
      modifies this`waits, this`blocked
      ensures View() == T.Ask(old(View()), me, key, state).0
      ensures asked == T.Ask(old(View()), me, key, state).1.asked
    {
      if me.None? {
        return T.Outside;
      }
      var at := key;
      ghost var g := T.Edges(slots, waits);
      ghost var p: seq<nat> := [];
      var i := 0;
      while i <= |waits|
        invariant 0 <= i == |p| <= |waits| + 1
        invariant waits == old(waits) && blocked == old(blocked)
        invariant forall r | r in p :: r in waits && r != me.value
        invariant p == [] ==> at == key
        invariant p != [] ==>
          && at == waits[p[|p| - 1]]
          && key in slots && p[0] == slots[key].running && Path(g, p)
      {
        if at !in slots {
          break;
        }
        var running := slots[at].running;
        ghost var q := p + [running];
        assert Path(g, q);
        if running == me.value {
          assert PathBetween(g, q, slots[key].running, me.value);
          return T.Ring;
        }
        if running !in waits {
          SinkPathPasses(g, q, me.value);
          break;
        }
        at := waits[running];
        p := q;
        i := i + 1;
      }
      if i > |waits| {
        PathDistinct(g, p);
        DistinctWithin(p, waits.Keys);
        assert false;
      }
      if p != [] && at !in slots {
        SinkPathPasses(g, p, me.value);
      }
      assert !T.ClosesRing(slots, waits, me.value, key);
      waits := waits[me.value := key];
      blocked := blocked[me.value := state];
      asked := T.By(me.value);
    }
  
    /** `Slot::queue`. */
    method Queue(key: T.Key, epoch: nat, forced: bool) returns (state: T.RunId)
      requires key in slots
      modifies this`slots, this`states
      ensures View() == T.Queue(old(View()), key, epoch, forced)
      ensures slots[key].queued.Some? && state == slots[key].queued.value.state
    {
      var slot := slots[key];
      var queued: T.Queued;
      match slot.queued {
        case Some(q) => queued := q;
        case None =>
          queued := T.Queued(|states|, false, epoch);
          states := states + [T.NewState(key, T.Behind)];
      }
      queued := queued.(forced := queued.forced || forced);
      if epoch >= queued.epoch {
        queued := queued.(epoch := epoch);
      }
      slots := slots[key := slot.(queued := Some(queued))];
      state := queued.state;
    }

    /** A read found the run in flight behind the files: the run queued behind it,
        queued now if there is none, is the one in flight. */
    method Replace(key: T.Key, epoch: nat) returns (state: T.RunId)
      requires key in slots && SlotOk(View(), key) && slots[key].overtaken.None?
      requires states[slots[key].running].stage.Live?
      modifies this`slots, this`states, this`decided
      ensures T.SlotIds(T.Queue(old(View()), key, epoch, false), key)
      ensures View() == T.Replace(T.Queue(old(View()), key, epoch, false), key)
      ensures key in slots && state == slots[key].running
    {
      QueueKeepsSlot(View(), key, epoch, false, key);
      state := Queue(key, epoch, false);
      var replaced := slots[key].running;
      slots := slots[key := slots[key].(running := state, queued := None)];
      states := states[replaced := states[replaced].(replaced := true)];
      states := states[state := states[state].(stage := T.Starting)];
      decided := decided + {(replaced, T.Moved(state))};
    }

    /** A slot for an instance with none. */
    method NewSlot(key: T.Key) returns (state: T.RunId)
      modifies this`slots, this`states
      ensures View() == T.NewSlot(old(View()), key) && state == old(|states|)
    {
      state := |states|;
      states := states + [T.NewState(key, T.Starting)];
      slots := slots[key := T.Slot(state, None, None)];
    }

    /** `Runs::start`. */
    method Start(me: T.Caller, want: T.Want, key: T.Key, epoch: nat, found: T.Found) returns (run: Option<T.Run>)
      requires Inv(View()) && T.Enabled(View(), T.DoStart(me, want, key, epoch, found))
      modifies this
      ensures old(T.Sound(View(), T.DoStart(me, want, key, epoch, found)))
      ensures (View(), run) == T.Start(old(View()), me, want, key, epoch, found)
      ensures Inv(View())
    {
      hide Inv, T.Ask, NoRing, T.Queue, T.Replace, T.NewSlot, Acyclic;
      SoundAlways(View(), T.DoStart(me, want, key, epoch, found));
      StartKeeps(View(), me, want, key, epoch, found);
      Ringless(View());
      var state: T.RunId;
      if key in slots {
        SlotOf(View(), key);
        var slot := slots[key];
        if slot.overtaken.None? && (want.Cold? || want.Any? || (want.Changed? && found.sees)) {
          state := slot.running;
        } else if want.Changed? && slot.overtaken.None? && !found.backoff {
          if !found.known {
            return None;
          }
          state := Replace(key, epoch);
          assert Acyclic(T.Edges(slots, waits)) by {
            ReplaceRingless(old(View()), key, epoch);
          }
        } else {
          state := Queue(key, epoch, want.Forced?);
          QueueRingless(old(View()), key, epoch, want.Forced?);
        }
      } else {
        if want.Cold? && found.recorded {
          return None;
        }
        if !want.Forced? && found.backoff {
          return None;
        }
        if !found.known {
          return None;
        }
        state := NewSlot(key);
        NewSlotRingless(old(View()), key);
      }
      ghost var v := View();
      var asked := Ask(me, key, state);
      assert T.Ask(v, me, key, state).1 == T.Run(key, state, asked) by {
        AskRun(v, me, key, state);
      }
      run := Some(T.Run(key, state, asked));
    }

    /** `Runs::supersede`. */
    method Supersede(key: T.Key, how: T.Overtake, epoch: nat)
      requires Inv(View())
      modifies this`slots, this`states
      ensures old(T.Sound(View(), T.DoSupersede(key, how, epoch)))
      ensures View() == T.Supersede(old(View()), key, how, epoch)
      ensures Inv(View())
    {
      hide Inv;
      SoundAlways(View(), T.DoSupersede(key, how, epoch));
      SupersedeKeeps(View(), key, how, epoch);
      if key !in slots {
        return;
      }
      SlotOf(View(), key);
      var mark: T.Overtaken := T.OvertakenGone(epoch);
      if how.Again? {
        var _ := Queue(key, epoch, false);
        mark := T.OvertakenAgain;
      }
      var slot := slots[key];
      slots := slots[key := slot.(overtaken := Some(mark))];
      states := states[slot.running := states[slot.running].(overtook := true)];
    }

    /** `Runs::settle`. */
    method Settle(r: T.RunId, result: Option<T.Outcome>, ahead: T.Ahead)
      requires Inv(View()) && T.Enabled(View(), T.DoSettle(r, result, ahead))
      modifies this
      ensures old(T.Sound(View(), T.DoSettle(r, result, ahead)))
      ensures View() == T.Settle(old(View()), r, result, ahead)
      ensures Inv(View())
    {
      hide Inv;
      SoundAlways(View(), T.DoSettle(r, result, ahead));
      SettleKeeps(View(), r, result, ahead);
      hide T.Conclude, SlotOk;
      var key := states[r].key;
      if key !in slots || slots[key].running != r {
        Conclude(r, T.Done(T.Dropped));
        return;
      }
      SlotOf(View(), key);
      var slot := slots[key];
      var queued, ended := slot.queued, None;
      var end: T.End;
      match slot.overtaken {
        case Some(OvertakenGone(epoch)) =>
          if queued.Some? && queued.value.epoch < epoch {
            ended, queued := Some(queued.value.state), None;
          }
          end := T.Done(T.Dropped);
        case Some(OvertakenAgain) =>
          assert queued.Some?;
          end := T.Moved(queued.value.state);
        case None => end := T.Done(if result.None? then T.Dropped else result.value);
      }
      assert end == T.EndOf(slot, result);
      assert T.SlotIds(View(), key);
      Conclude(r, end);
      if queued.Some? && result.Some? && ahead.runtime && (queued.value.forced || !ahead.backoff) && ahead.known {
        var q := queued.value.state;
        slots := slots[key := T.Slot(q, None, None)];
        states := states[q := states[q].(stage := T.Starting)];
      } else {
        if queued.Some? {
          ended := Some(queued.value.state);
        }
        slots := slots - {key};
        if ended.Some? {
          states := states[ended.value := states[ended.value].(stage := T.Discarded)];
          decided := decided + {(ended.value, T.Done(T.Dropped))};
        }
      }
    }

    /** The run is over, and its end is a thread's to write. */
    method Conclude(r: T.RunId, end: T.End)
      requires r < |states|
      modifies this`states, this`stores, this`decided
      ensures View() == T.Conclude(old(View()), r, end) && |states| == old(|states|)
    {
      var stored := end == T.Done(T.Stored);
      states := states[r := states[r].(stage := T.Settled, stored := stored || states[r].stored)];
      if stored {
        stores := stores + [r];
      }
      decided := decided + {(r, end)};
    }

    /** `State::finish`: the first end written stands. */
    method Finish(r: T.RunId, end: T.End)
      requires Inv(View()) && (r, end) in decided
      modifies this`states, this`decided
      ensures old(T.Sound(View(), T.DoFinish(r, end)))
      ensures View() == T.Finish(old(View()), r, end)
      ensures Inv(View())
    {
      hide Inv;
      SoundAlways(View(), T.DoFinish(r, end));
      FinishKeeps(View(), r, end);
      if states[r].end.None? {
        states := states[r := states[r].(end := Some(end))];
      }
      decided := decided - {(r, end)};
    }

    /** `Run::outcome_now`: the loop over moved States ends, as each is made later
        than the one before, with the outcome of the last, where there is one. */
    method OutcomeNow(s: T.RunId) returns (outcome: Option<T.Outcome>)
      requires Inv(View()) && s < |states|
      ensures outcome.Some? <==> states[LastOf(View(), s)].end.Some?
      ensures outcome.Some? ==> states[LastOf(View(), s)].end == Some(T.Done(outcome.value))
    {
      hide Inv;
      var state := s;
      while true
        invariant state < |states| && LastOf(View(), state) == LastOf(View(), s)
        decreases |states| - state
      {
        StateOf(View(), state);
        match states[state].end {
          case None => return None;
          case Some(Done(o)) => return Some(o);
          case Some(Moved(next)) => state := next;
        }
      }
    }
  }

  lemma Ringless(w: T.World)
    requires Inv(w)
    ensures Acyclic(T.Edges(w.slots, w.waits))
  {
    hide SlotsOk, StatesOk, Accounted, DecidedOk, StoresOk, WaitsOk, Acyclic;
  }

  lemma QueueRingless(w: T.World, key: T.Key, epoch: nat, forced: bool)
    requires Inv(w) && key in w.slots
    ensures var u := T.Queue(w, key, epoch, forced); Acyclic(T.Edges(u.slots, u.waits))
  {
    hide Inv, Acyclic, T.Edges;
    QueueKeeps(w, key, epoch, forced);
    Ringless(T.Queue(w, key, epoch, forced));
  }

  lemma ReplaceRingless(w: T.World, key: T.Key, epoch: nat)
    requires Inv(w) && key in w.slots && SlotOk(w, key) && w.slots[key].overtaken.None?
    requires w.states[w.slots[key].running].stage.Live?
    ensures var u := T.Queue(w, key, epoch, false);
      T.SlotIds(u, key) && (var v := T.Replace(u, key); Acyclic(T.Edges(v.slots, v.waits)))
  {
    hide Inv, Acyclic, T.Edges;
    QueueKeeps(w, key, epoch, false);
    var u := T.Queue(w, key, epoch, false);
    SlotOf(u, key);
    ReplaceKeeps(u, key);
    Ringless(T.Replace(u, key));
  }

  lemma NewSlotRingless(w: T.World, key: T.Key)
    requires Inv(w) && key !in w.slots
    ensures var u := T.NewSlot(w, key); Acyclic(T.Edges(u.slots, u.waits))
  {
    hide Inv, Acyclic, T.Edges;
    NewSlotKeeps(w, key);
    Ringless(T.NewSlot(w, key));
  }

  lemma AskRun(w: T.World, me: T.Caller, key: T.Key, state: T.RunId)
    ensures var run := T.Ask(w, me, key, state).1; run.key == key && run.state == state
  {
  }
}
