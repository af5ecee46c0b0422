/** The run coordinator of src/run.rs as a transition system: the table of slots
    and waits, every run's State ever made, and the ends decided under the
    table's lock that their threads have yet to write. */
module RunTable {
  import opened Prelude
  import opened WaitGraph

  datatype Key = Key(provider: string, source: string, path: Option<string>)

  /** A run is its State's index in `World.states`. */
  type RunId = nat

  datatype Want = Cold | Any | Changed | Fresh | Forced

  datatype Outcome = Stored | Failed(message: string, fault: bool) | Dropped

  datatype End = Done(outcome: Outcome) | Moved(next: RunId)

  datatype Overtake = Gone | Again

  datatype Overtaken = OvertakenGone(epoch: nat) | OvertakenAgain

  /** A registry is its epoch. */
  datatype Queued = Queued(state: RunId, forced: bool, epoch: nat)

  datatype Slot = Slot(running: RunId, queued: Option<Queued>, overtaken: Option<Overtaken>)

  /** Where a run stands: behind the one in flight; chosen to run, its task not
      spawned yet; its task and thread at work; its task settled (a thread cut
      off may go on); let go while it was queued. */
  datatype Stage = Behind | Starting | Live | Settled | Discarded

  /** A State, with the history of its run: whether a reload overtook it or a
      read replaced it while it was in flight, and whether it stored. */
  datatype State = State(
    key: Key, stage: Stage, end: Option<End>,
    overtook: bool, replaced: bool, stored: bool)

  datatype World = World(
    slots: map<Key, Slot>,
    /** Each run whose thread waits on another instance's run, to that instance. */
    waits: map<RunId, Key>,
    /** The State each such thread waits on now: the one it was handed, or one
        that one has moved to. */
    blocked: map<RunId, RunId>,
    /** Every State ever made, by id. */
    states: seq<State>,
    /** Ends decided under the lock, to be written after it is let go. */
    decided: set<(RunId, End)>,
    /** The runs whose results were stored, in order. */
    stores: seq<RunId>,
    /** An `expect` of the coordinator failed. */
    panicked: bool)

  const INIT := World(map[], map[], map[], [], {}, [], false)

  /** The caller of `start`: a task, or the thread of a run. */
  type Caller = Option<RunId>

  datatype Asked = Outside | By(run: RunId) | Ring

  /** What `start` hands back. */
  datatype Run = Run(key: Key, state: RunId, asked: Asked)

  /** What `start` finds outside the table: whether the instance is in failback
      backoff, its Source is registered, the run in flight sees its inputs as
      they are, and a record is stored. */
  datatype Found = Found(backoff: bool, known: bool, sees: bool, recorded: bool)

  /** What `settle` finds outside the table: whether the daemon's runtime is
      there, the queued run's instance is in backoff, and its Source registered. */
  datatype Ahead = Ahead(runtime: bool, backoff: bool, known: bool)

  /** Run r points at the run in flight of the instance it waits on. */
  function Edges(slots: map<Key, Slot>, waits: map<RunId, Key>): (g: Graph)
    ensures |g| <= |waits|
  {
    var g := map r | r in waits && waits[r] in slots :: slots[waits[r]].running;
    assert g.Keys <= waits.Keys;
    SubsetSize(g.Keys, waits.Keys);
    g
  }

  lemma {:induction false} SubsetSize<T>(a: set<T>, b: set<T>)
    requires a <= b
    ensures |a| <= |b|
  {
    assert b == a + (b - a);
  }

  /** Whether the caller's wait on `key` would close a ring: the run in flight
      there waits, however far round, on the caller. */
  ghost predicate ClosesRing(slots: map<Key, Slot>, waits: map<RunId, Key>, me: RunId, key: Key) {
    key in slots && Reaches(Edges(slots, waits), slots[key].running, me)
  }

  // ---- Steps under the table's lock -------------------------------------

  function NewState(key: Key, stage: Stage): State {
    State(key, stage, None, false, false, false)
  }

  function SetStage(w: World, r: RunId, stage: Stage): World
    requires r < |w.states|
  {
    w.(states := w.states[r := w.states[r].(stage := stage)])
  }

  /** `Slot::queue`: at most one run stands behind the one in flight. Whoever asks for it
      first makes it, and the registry of the highest epoch among the askers is its own. */
  function Queue(w: World, key: Key, epoch: nat, forced: bool): (q: World)
    requires key in w.slots
    ensures key in q.slots && q.slots[key].queued.Some?
  {
    var slot := w.slots[key];
    match slot.queued
    case None =>
      w.(slots := w.slots[key := slot.(queued := Some(Queued(|w.states|, forced, epoch)))],
         states := w.states + [NewState(key, Behind)])
    case Some(q) =>
      w.(slots := w.slots[key := slot.(queued :=
           Some(q.(forced := q.forced || forced, epoch := Max(epoch, q.epoch))))])
  }

  /** `Table::ask`, for the State the caller is handed. */
  ghost function Ask(w: World, me: Caller, key: Key, state: RunId): (World, Run) {
    match me
    case None => (w, Run(key, state, Outside))
    case Some(r) =>
      if ClosesRing(w.slots, w.waits, r, key) then
        (w, Run(key, state, Ring))
      else
        (w.(waits := w.waits[r := key], blocked := w.blocked[r := state]), Run(key, state, By(r)))
  }

  /** A read found the run in flight behind the files: the queued run begins in
      its place, and its waiters are to be told where to go. */
  function Replace(w: World, key: Key): World
    requires key in w.slots && w.slots[key].queued.Some?
    requires w.slots[key].running < |w.states| && w.slots[key].queued.value.state < |w.states|
  {
    var slot := w.slots[key];
    var behind, q := slot.running, slot.queued.value.state;
    var w1 := w.(states := w.states[behind := w.states[behind].(replaced := true)]);
    SetStage(w1, q, Starting).(
      slots := w.slots[key := slot.(running := q, queued := None)],
      decided := w.decided + {(behind, Moved(q))})
  }

  /** A slot for an instance with none, its run yet to begin. */
  function NewSlot(w: World, key: Key): World {
    w.(states := w.states + [NewState(key, Starting)], slots := w.slots[key := Slot(|w.states|, None, None)])
  }

  /** `Runs::start`. */
  ghost function Start(w: World, me: Caller, want: Want, key: Key, epoch: nat, found: Found): (World, Option<Run>)
    requires key in w.slots ==> SlotIds(w, key)
  {
    if key in w.slots then
      var slot := w.slots[key];
      if slot.overtaken.None? && (want.Cold? || want.Any? || (want.Changed? && found.sees)) then
        Handed(Ask(w, me, key, slot.running))
      else if want.Changed? && slot.overtaken.None? && !found.backoff then
        if !found.known then (w, None) else
        var w1 := Replace(Queue(w, key, epoch, false), key);
        Handed(Ask(w1, me, key, w1.slots[key].running))
      else
        var w1 := Queue(w, key, epoch, want.Forced?);
        Handed(Ask(w1, me, key, w1.slots[key].queued.value.state))
    else if (want.Cold? && found.recorded) || (!want.Forced? && found.backoff) || !found.known then
      (w, None)
    else
      Handed(Ask(NewSlot(w, key), me, key, |w.states|))
  }

  function Handed(asked: (World, Run)): (World, Option<Run>) {
    (asked.0, Some(asked.1))
  }

  /** The States a slot names have been made. */
  predicate SlotIds(w: World, key: Key)
    requires key in w.slots
  {
    var slot := w.slots[key];
    slot.running < |w.states| && (slot.queued.Some? ==> slot.queued.value.state < |w.states|)
  }

  /** A reload's mark on the run in flight. */
  function Mark(w: World, key: Key, mark: Overtaken): World
    requires key in w.slots && SlotIds(w, key)
  {
    var slot := w.slots[key];
    w.(slots := w.slots[key := slot.(overtaken := Some(mark))],
       states := w.states[slot.running := w.states[slot.running].(overtook := true)])
  }

  /** `Runs::supersede`. */
  function Supersede(w: World, key: Key, how: Overtake, epoch: nat): World
    requires key in w.slots ==> SlotIds(w, key)
  {
    if key !in w.slots then w
    else if how.Again? then Mark(Queue(w, key, epoch, false), key, OvertakenAgain)
    else Mark(w, key, OvertakenGone(epoch))
  }

  /** The overtaken run's reload dropped the Source of what is queued behind it too. */
  predicate DroppedByOvertake(slot: Slot) {
    && slot.overtaken.Some? && slot.overtaken.value.OvertakenGone?
    && slot.queued.Some? && slot.queued.value.epoch < slot.overtaken.value.epoch
  }

  /** The queued run begins when the one in flight settles with `result`. */
  predicate RunsNext(slot: Slot, result: Option<Outcome>, ahead: Ahead) {
    && slot.queued.Some? && !DroppedByOvertake(slot)
    && result.Some? && ahead.runtime && (slot.queued.value.forced || !ahead.backoff) && ahead.known
  }

  /** The end `settle` decides for the run in flight. */
  function EndOf(slot: Slot, result: Option<Outcome>): End
    requires slot.overtaken == Some(OvertakenAgain) ==> slot.queued.Some?
  {
    match slot.overtaken
    case Some(OvertakenGone(_)) => Done(Dropped)
    case Some(OvertakenAgain) => Moved(slot.queued.value.state)
    case None => if result.None? then Done(Dropped) else Done(result.value)
  }

  /** Run `r` is over, and `end` is what its waiters are to be told. */
  function Conclude(w: World, r: RunId, end: End): World
    requires r < |w.states|
  {
    var stored := end == Done(Stored);
    w.(states := w.states[r := w.states[r].(stage := Settled, stored := stored || w.states[r].stored)],
       stores := if stored then w.stores + [r] else w.stores,
       decided := w.decided + {(r, end)})
  }

  /** The run behind `r` begins. */
  function SettleNext(w: World, r: RunId, end: End): World
    requires r < |w.states| && w.states[r].key in w.slots
    requires SlotIds(w, w.states[r].key) && w.slots[w.states[r].key].queued.Some?
  {
    var key := w.states[r].key;
    var q := w.slots[key].queued.value.state;
    SetStage(Conclude(w, r, end), q, Starting).(slots := w.slots[key := Slot(q, None, None)])
  }

  /** Nothing runs after `r`: the slot goes, and a run queued behind it is let go. */
  function SettleLast(w: World, r: RunId, end: End): World
    requires r < |w.states| && w.states[r].key in w.slots && SlotIds(w, w.states[r].key)
  {
    var key := w.states[r].key;
    var slots := w.slots - {key};
    var v := Conclude(w, r, end).(slots := slots);
    match w.slots[key].queued
    case None => v
    case Some(q) => SetStage(v, q.state, Discarded).(decided := v.decided + {(q.state, Done(Dropped))})
  }

  /** `Runs::settle` of run `r`, whose result was recorded with outcome `result`, or
      whose task was dropped (`None`). If another run is in flight by now, or none is,
      the slot is not touched. */
  function Settle(w: World, r: RunId, result: Option<Outcome>, ahead: Ahead): World
    requires r < |w.states|
    requires w.states[r].key in w.slots ==> SlotIds(w, w.states[r].key)
    requires w.states[r].key in w.slots && w.slots[w.states[r].key].overtaken == Some(OvertakenAgain)
      ==> w.slots[w.states[r].key].queued.Some?
  {
    var key := w.states[r].key;
    if key !in w.slots || w.slots[key].running != r then Conclude(w, r, Done(Dropped))
    else if RunsNext(w.slots[key], result, ahead) then SettleNext(w, r, EndOf(w.slots[key], result))
    else SettleLast(w, r, EndOf(w.slots[key], result))
  }

  // ---- Steps outside it -------------------------------------------------

  /** The task of a chosen run is spawned. */
  function Launch(w: World, r: RunId): World
    requires r < |w.states|
  {
    SetStage(w, r, Live)
  }

  /** `State::finish`: the first end written stands. */
  function Finish(w: World, r: RunId, end: End): World
    requires r < |w.states|
  {
    w.(states := if w.states[r].end.Some? then w.states else w.states[r := w.states[r].(end := Some(end))],
       decided := w.decided - {(r, end)})
  }

  function EndAt(w: World, s: RunId): Option<End> {
    if s < |w.states| then w.states[s].end else None
  }

  /** A waiting thread finds its State moved, and waits on the other. */
  function Follow(w: World, me: RunId): World {
    if me !in w.blocked then w else
    match EndAt(w, w.blocked[me])
    case Some(Moved(next)) => w.(blocked := w.blocked[me := next])
    case _ => w
  }

  /** `Run::wait` returns to the thread of run `me`. */
  function Return(w: World, me: RunId): World {
    w.(waits := w.waits - {me}, blocked := w.blocked - {me})
  }

  // ---- The system -------------------------------------------------------

  datatype Action =
    | DoStart(caller: Caller, want: Want, key: Key, epoch: nat, found: Found)
    | DoSupersede(key: Key, how: Overtake, epoch: nat)
    | DoSettle(run: RunId, result: Option<Outcome>, ahead: Ahead)
    | DoLaunch(run: RunId)
    | DoFinish(run: RunId, end: End)
    | DoFollow(run: RunId)
    | DoReturn(run: RunId)

  /** A run's thread is at work, or was left behind when its task was cut off. */
  predicate HasThread(w: World, r: RunId) {
    r < |w.states| && (w.states[r].stage.Live? || w.states[r].stage.Settled?)
  }

  /** A run's thread asks for another only when it is not waiting on one: it must
      wait on what it was handed. A run yet to begin has stamped no inputs, and
      sees them as they are. A task settles once. */
  predicate Enabled(w: World, a: Action) {
    match a
    case DoStart(me, want, key, epoch, found) =>
      && (me.Some? ==> HasThread(w, me.value) && me.value !in w.waits)
      && (key in w.slots && w.slots[key].running < |w.states| && w.states[w.slots[key].running].stage.Starting?
          ==> found.sees)
    case DoSupersede(key, how, epoch) => true
    case DoSettle(r, result, ahead) => r < |w.states| && w.states[r].stage.Live?
    case DoLaunch(r) => r < |w.states| && w.states[r].stage.Starting?
    case DoFinish(r, end) => (r, end) in w.decided
    case DoFollow(me) => me in w.blocked && EndAt(w, w.blocked[me]).Some? && EndAt(w, w.blocked[me]).value.Moved?
    case DoReturn(me) => me in w.blocked && EndAt(w, w.blocked[me]).Some? && EndAt(w, w.blocked[me]).value.Done?
  }

  /** The coordinator finds what it expects: the States its slots and ends name,
      and a run queued behind one that a reload runs again. */
  predicate Sound(w: World, a: Action) {
    match a
    case DoStart(me, want, key, epoch, found) => key in w.slots ==> SlotIds(w, key)
    case DoSupersede(key, how, epoch) => key in w.slots ==> SlotIds(w, key)
    case DoSettle(r, result, ahead) =>
      && r < |w.states|
      && (w.states[r].key in w.slots ==> SlotIds(w, w.states[r].key))
      && (w.states[r].key in w.slots && w.slots[w.states[r].key].overtaken == Some(OvertakenAgain)
          ==> w.slots[w.states[r].key].queued.Some?)
    case DoLaunch(r) => r < |w.states|
    case DoFinish(r, end) => r < |w.states|
    case DoFollow(me) => true
    case DoReturn(me) => true
  }

  ghost function Step(w: World, a: Action): World
    requires Enabled(w, a)
  {
    if !Sound(w, a) then w.(panicked := true) else
    match a
    case DoStart(me, want, key, epoch, found) => Start(w, me, want, key, epoch, found).0
    case DoSupersede(key, how, epoch) => Supersede(w, key, how, epoch)
    case DoSettle(r, result, ahead) => Settle(w, r, result, ahead)
    case DoLaunch(r) => Launch(w, r)
    case DoFinish(r, end) => Finish(w, r, end)
    case DoFollow(me) => Follow(w, me)
    case DoReturn(me) => Return(w, me)
  }

  /** `b` comes of `a` by the steps `trace`, each possible where it is taken. */
  ghost predicate Leads(a: World, trace: seq<Action>, b: World)
    decreases |trace|
  {
    if trace == [] then a == b
    else Enabled(a, trace[0]) && Leads(Step(a, trace[0]), trace[1..], b)
  }

  ghost predicate Reachable(w: World) {
    exists trace :: Leads(INIT, trace, w)
  }
}
