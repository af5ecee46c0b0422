/** The watch registrar (src/watcher.rs) as a transition system: the scheduler, its
    one client, asks for paths and stops asking; a worker thread takes the commands in
    order, registers each path, and settles the ask. Writing the table and sending the
    command are two steps of the client's, and registering and settling two of the
    worker's, with anything between them. */
module Registrar {
  import opened Prelude
  import opened Holds

  datatype WatchState = Pending | Active(via: Option<Path>) | Failed

  /** What the table holds of a path: the number of its latest ask, and its state. */
  datatype Asked = Asked(ask: nat, state: WatchState)

  datatype Command = Watch(path: Path, ask: nat) | Unwatch(path: Path) | Backend

  /** A path the worker has registered and not settled yet. */
  datatype Working = Working(path: Path, ask: nat, state: WatchState)

  /** `sending` is the command of a client between its two steps. */
  datatype World = World(table: map<Path, Asked>, asks: nat, sending: Option<Command>, queue: seq<Command>,
                         working: Option<Working>, holds: Holds, lost: set<Path>)

  ghost predicate Start(w: World) {
    w == World(map[], 0, None, [], None, NO_HOLDS, {})
  }

  // ---- Steps ------------------------------------------------------------

  /** `watch`, up to its command; `retry` and `look_again` are runs of these. */
  ghost predicate AskFor(w: World, p: Path, v: World) {
    && w.sending.None?
    && v == w.(table := w.table[p := Asked(w.asks + 1, Pending)], asks := w.asks + 1, sending := Some(Watch(p, w.asks + 1)))
  }

  /** `unwatch`, up to its command. */
  ghost predicate LetGo(w: World, p: Path, v: World) {
    w.sending.None? && v == w.(table := w.table - {p}, sending := Some(Unwatch(p)))
  }

  /** `replace_backend`, up to its command. */
  ghost predicate SwapBackend(w: World, v: World) {
    w.sending.None? && v == w.(sending := Some(Backend))
  }

  ghost predicate Send(w: World, v: World) {
    w.sending.Some? && v == w.(sending := None, queue := w.queue + [w.sending.value])
  }

  /** What a registration makes of a path. */
  function StateOf(path: Path, found: Option<Hold>, ok: bool): WatchState {
    if ok && found.Some? then Active(if found.value.on == path then None else Some(found.value.on)) else Failed
  }

  /** The worker takes a command, up to settling it. `os` is what a new backend has
      registered again. */
  ghost predicate Take(w: World, found: Option<Hold>, says: Answers, os: map<Path, bool>, v: World) {
    && w.working.None? && w.queue != []
    && var rest := w.queue[1..];
       match w.queue[0]
       case Watch(p, ask) =>
         var h := Released(w.holds, p);
         var (r, ok) := Registered(h, p, found, says);
         v == w.(queue := rest, holds := r, working := Some(Working(p, ask, StateOf(p, found, ok))),
                 lost := LostAfter(h, found, says, LostAfterRelease(h, w.lost)))
       case Unwatch(p) =>
         var h := Released(w.holds, p);
         v == w.(queue := rest, holds := h, lost := LostAfterRelease(h, w.lost))
       case Backend =>
         && (forall on | on in os :: on in w.holds.kernel && os[on] == w.holds.kernel[on].recursive)
         && v == w.(queue := rest, holds := w.holds.(os := os), lost := w.holds.kernel.Keys - os.Keys)
  }

  /** The ask is settled, unless the path was unwatched or asked for again since. */
  ghost predicate Settle(w: World, v: World) {
    && w.working.Some?
    && var k := w.working.value;
       v == w.(working := None,
               table := if k.path in w.table && w.table[k.path].ask == k.ask
                        then w.table[k.path := Asked(k.ask, k.state)] else w.table)
  }

  datatype Action =
    | Asks(p: Path)
    | LetsGo(p: Path)
    | Swaps
    | Sends
    | Takes(found: Option<Hold>, says: Answers, os: map<Path, bool>)
    | Settles

  ghost predicate Step(w: World, a: Action, v: World) {
    match a
    case Asks(p) => AskFor(w, p, v)
    case LetsGo(p) => LetGo(w, p, v)
    case Swaps => SwapBackend(w, v)
    case Sends => Send(w, v)
    case Takes(found, says, os) => Take(w, found, says, os, v)
    case Settles => Settle(w, v)
  }

  ghost predicate Run(ws: seq<World>, acts: seq<Action>) {
    && |ws| == |acts| + 1 && Start(ws[0])
    && forall i | 0 <= i < |acts| :: Step(ws[i], acts[i], ws[i + 1])
  }

  // ---- The invariant ----------------------------------------------------

  /** The commands the worker has still to take, the one being sent last. */
  function Ahead(w: World): seq<Command> {
    w.queue + if w.sending.Some? then [w.sending.value] else []
  }

  predicate About(c: Command, p: Path) {
    !c.Backend? && c.path == p
  }

  /** The last command about `p`, of the ones ahead. */
  function LastAbout(cs: seq<Command>, p: Path): Option<Command> {
    if cs == [] then None
    else if About(cs[|cs| - 1], p) then Some(cs[|cs| - 1])
    else LastAbout(cs[..|cs| - 1], p)
  }

  /** The state says of the path what the worker holds of it. */
  predicate Agrees(h: Holds, p: Path, s: WatchState) {
    match s
    case Pending => false
    case Active(via) => p in h.held && h.held[p].on == (if via.Some? then via.value else p)
    case Failed => p !in h.held
  }

  /** Where a path stands, by what is still to come of it. */
  predicate PathOk(w: World, p: Path) {
    match LastAbout(Ahead(w), p)
    case Some(Watch(_, ask)) => p in w.table && w.table[p] == Asked(ask, Pending)
    case Some(_) => p !in w.table
    case None =>
      if w.working.Some? && w.working.value.path == p
      then p in w.table && w.table[p] == Asked(w.working.value.ask, Pending)
      else if p in w.table then Agrees(w.holds, p, w.table[p].state)
      else p !in w.holds.held
  }

  predicate AskAt(c: Command, low: nat, high: nat) {
    c.Watch? ==> low < c.ask <= high
  }

  /** Ask numbers rise along the commands, from the one being worked on. */
  ghost predicate AsksRise(w: World) {
    && (w.working.Some? ==> w.working.value.ask <= w.asks)
    && (forall i | 0 <= i < |Ahead(w)| :: AskAt(Ahead(w)[i], if w.working.Some? then w.working.value.ask else 0, w.asks))
    && (forall i, j | 0 <= i < j < |Ahead(w)| && Ahead(w)[i].Watch? :: AskAt(Ahead(w)[j], Ahead(w)[i].ask, w.asks))
  }

  ghost predicate Inv(w: World) {
    && (forall p {:trigger PathOk(w, p)} :: PathOk(w, p))
    && AsksRise(w)
    && (w.working.Some? ==> Agrees(w.holds, w.working.value.path, w.working.value.state))
    && Counted(w.holds) && Mirrored(w.holds, w.lost)
  }

  // ---- Commands about one path ------------------------------------------

  lemma LastOfMore(cs: seq<Command>, c: Command, p: Path)
    ensures LastAbout(cs + [c], p) == if About(c, p) then Some(c) else LastAbout(cs, p)
  {
    assert (cs + [c])[..|cs|] == cs;
  }

  lemma {:induction false} LastOfRest(cs: seq<Command>, p: Path)
    requires cs != []
    ensures LastAbout(cs, p) ==
      if LastAbout(cs[1..], p).Some? then LastAbout(cs[1..], p) else if About(cs[0], p) then Some(cs[0]) else None
  {
    if |cs| > 1 {
      LastOfRest(cs[..|cs| - 1], p);
      assert cs[..|cs| - 1][1..] == cs[1..][..|cs| - 2];
    } else {
      assert cs[1..] == [] && cs[..0] == [];
    }
  }

  lemma {:induction false} LastIsOne(cs: seq<Command>, p: Path)
    ensures LastAbout(cs, p).Some? ==> LastAbout(cs, p).value in cs && About(LastAbout(cs, p).value, p)
  {
    if cs != [] {
      LastIsOne(cs[..|cs| - 1], p);
    }
  }

  // ---- Steps keep it ----------------------------------------------------

  lemma AskForKeeps(w: World, p: Path, v: World)
    requires Inv(w) && AskFor(w, p, v)
    ensures Inv(v)
  {
    var c := Watch(p, w.asks + 1);
    assert Ahead(w) == w.queue && Ahead(v) == w.queue + [c];
    forall q
      ensures PathOk(v, q)
    {
      assert PathOk(w, q);
      LastOfMore(w.queue, c, q);
    }
    forall i | 0 <= i < |Ahead(v)|
      ensures AskAt(Ahead(v)[i], if v.working.Some? then v.working.value.ask else 0, v.asks)
    {
      assert i < |w.queue| ==> Ahead(v)[i] == Ahead(w)[i];
    }
    forall i, j | 0 <= i < j < |Ahead(v)| && Ahead(v)[i].Watch?
      ensures AskAt(Ahead(v)[j], Ahead(v)[i].ask, v.asks)
    {
      assert Ahead(v)[i] == Ahead(w)[i] && (j < |w.queue| ==> Ahead(v)[j] == Ahead(w)[j]);
    }
  }

  lemma QuietSendKeeps(w: World, c: Command, v: World)
    requires Inv(w) && w.sending.None? && !c.Watch?
    requires v == w.(sending := Some(c), table := if c.Unwatch? then w.table - {c.path} else w.table)
    ensures Inv(v)
  {
    assert Ahead(w) == w.queue && Ahead(v) == w.queue + [c];
    forall q
      ensures PathOk(v, q)
    {
      assert PathOk(w, q);
      LastOfMore(w.queue, c, q);
    }
  }

  lemma SendKeeps(w: World, v: World)
    requires Inv(w) && Send(w, v)
    ensures Inv(v)
  {
    assert Ahead(v) == Ahead(w);
    forall q
      ensures PathOk(v, q)
    {
      assert PathOk(w, q);
    }
  }

  lemma TakeAhead(w: World)
    requires w.queue != []
    ensures Ahead(w)[1..] == w.queue[1..] + (if w.sending.Some? then [w.sending.value] else [])
    ensures Ahead(w) != [] && Ahead(w)[0] == w.queue[0]
  {
  }

  /** The path of the command taken, and every other. */
  lemma TakenPath(w: World, found: Option<Hold>, says: Answers, os: map<Path, bool>, v: World, q: Path)
    requires Inv(w) && Take(w, found, says, os, v)
    ensures PathOk(v, q)
  {
    TakeAhead(w);
    LastOfRest(Ahead(w), q);
    assert PathOk(w, q);
    match w.queue[0]
    case Watch(p, ask) =>
      ReleaseKeeps(w.holds, p, w.lost);
      RegisterKeeps(Released(w.holds, p), p, found, says, LostAfterRelease(Released(w.holds, p), w.lost));
    case Unwatch(p) => ReleaseKeeps(w.holds, p, w.lost);
    case Backend =>
  }

  lemma TakeKeeps(w: World, found: Option<Hold>, says: Answers, os: map<Path, bool>, v: World)
    requires Inv(w) && Take(w, found, says, os, v)
    ensures Inv(v)
  {
    forall q
      ensures PathOk(v, q)
    {
      TakenPath(w, found, says, os, v, q);
    }
    TakeAhead(w);
    assert Ahead(v) == Ahead(w)[1..];
    TakenHolds(w, found, says, os, v);
    TakenAsks(w, v);
  }

  lemma TakenAsks(w: World, v: World)
    requires AsksRise(w) && w.working.None? && Ahead(w) != [] && Ahead(v) == Ahead(w)[1..] && v.asks == w.asks
    requires v.working.Some? ==> Ahead(w)[0].Watch? && v.working.value.ask == Ahead(w)[0].ask
    ensures AsksRise(v)
  {
    forall i | 0 <= i < |Ahead(v)|
      ensures AskAt(Ahead(v)[i], if v.working.Some? then v.working.value.ask else 0, v.asks)
    {
      assert Ahead(v)[i] == Ahead(w)[i + 1];
    }
    forall i, j | 0 <= i < j < |Ahead(v)| && Ahead(v)[i].Watch?
      ensures AskAt(Ahead(v)[j], Ahead(v)[i].ask, v.asks)
    {
      assert Ahead(v)[i] == Ahead(w)[i + 1] && Ahead(v)[j] == Ahead(w)[j + 1];
    }
  }

  lemma TakenHolds(w: World, found: Option<Hold>, says: Answers, os: map<Path, bool>, v: World)
    requires Inv(w) && Take(w, found, says, os, v)
    ensures Counted(v.holds) && Mirrored(v.holds, v.lost)
    ensures v.working.Some? ==> Agrees(v.holds, v.working.value.path, v.working.value.state)
  {
    match w.queue[0]
    case Watch(p, ask) =>
      ReleaseKeeps(w.holds, p, w.lost);
      RegisterKeeps(Released(w.holds, p), p, found, says, LostAfterRelease(Released(w.holds, p), w.lost));
    case Unwatch(p) => ReleaseKeeps(w.holds, p, w.lost);
    case Backend =>
      forall on
        ensures OnOk(v.holds, on)
      {
        assert OnOk(w.holds, on);
      }
  }

  lemma SettleKeeps(w: World, v: World)
    requires Inv(w) && Settle(w, v)
    ensures Inv(v)
  {
    var k := w.working.value;
    assert Ahead(v) == Ahead(w);
    forall q
      ensures PathOk(v, q)
    {
      assert PathOk(w, q);
      LastIsOne(Ahead(w), q);
    }
  }

  lemma StepKeeps(w: World, a: Action, v: World)
    requires Inv(w) && Step(w, a, v)
    ensures Inv(v)
  {
    hide Inv, AskFor, Send, Take, Settle;
    match a
    case Asks(p) => AskForKeeps(w, p, v);
    case LetsGo(p) => QuietSendKeeps(w, Unwatch(p), v);
    case Swaps => QuietSendKeeps(w, Backend, v);
    case Sends => SendKeeps(w, v);
    case Takes(found, says, os) => TakeKeeps(w, found, says, os, v);
    case Settles => SettleKeeps(w, v);
  }

  lemma StartKeeps(w: World)
    requires Start(w)
    ensures Inv(w)
  {
    forall on
      ensures OnOk(w.holds, on)
    {
    }
    assert Ahead(w) == [];
    forall p
      ensures PathOk(w, p)
    {
    }
  }

  lemma {:induction false} RunInv(ws: seq<World>, acts: seq<Action>, i: nat)
    requires Run(ws, acts) && i < |ws|
    ensures Inv(ws[i])
  {
    hide Inv, Step;
    if i == 0 {
      StartKeeps(ws[0]);
    } else {
      RunInv(ws, acts, i - 1);
      StepKeeps(ws[i - 1], acts[i - 1], ws[i]);
    }
  }

  // ---- What it is for ---------------------------------------------------

  /** Nothing is being sent, waiting or being worked on. */
  predicate Idle(w: World) {
    w.sending.None? && w.queue == [] && w.working.None?
  }

  /** Under every interleaving, once the commands are drained no path is pending, a
      path is active just where the worker holds it, on itself or through the directory
      it names, a failed path holds nothing, and nor does one nobody asks for. */
  lemma IdleAgrees(ws: seq<World>, acts: seq<Action>, i: nat, p: Path)
    requires Run(ws, acts) && i < |ws| && Idle(ws[i])
    ensures var w := ws[i];
      && (p in w.holds.held <==> p in w.table && w.table[p].state.Active?)
      && (p in w.table ==> !w.table[p].state.Pending?)
      && (p in w.table && w.table[p].state.Active? ==>
            w.holds.held[p].on == (if w.table[p].state.via.Some? then w.table[p].state.via.value else p))
  {
    RunInv(ws, acts, i);
    assert PathOk(ws[i], p);
  }

  /** At every moment the registrations are accounted for. */
  lemma AlwaysCounted(ws: seq<World>, acts: seq<Action>, i: nat)
    requires Run(ws, acts) && i < |ws|
    ensures Counted(ws[i].holds) && Mirrored(ws[i].holds, ws[i].lost)
  {
    RunInv(ws, acts, i);
  }

  // ---- What is watched, and what only seems so --------------------------

  /** The step loses the registration of `on`: an upgrade that fails and cannot be put
      back, or a new backend that does not take it. */
  ghost predicate Loses(w: World, a: Action, on: Path) {
    && a.Takes? && w.queue != []
    && match w.queue[0]
       case Watch(p, ask) => Upgrades(Released(w.holds, p), a.found, on) && !a.says.made && !a.says.back
       case Unwatch(p) => false
       case Backend => on in w.holds.kernel && on !in a.os
  }

  /** The step restores it, or takes it down: an upgrade made or put back, the last path
      leaving it, or a new backend that takes it. */
  ghost predicate Mends(w: World, a: Action, on: Path) {
    && a.Takes? && w.queue != []
    && match w.queue[0]
       case Watch(p, ask) =>
         on !in Released(w.holds, p).kernel || (Upgrades(Released(w.holds, p), a.found, on) && (a.says.made || a.says.back))
       case Unwatch(p) => on !in Released(w.holds, p).kernel
       case Backend => on in a.os || on !in w.holds.kernel
  }

  ghost predicate LostAt(ws: seq<World>, acts: seq<Action>, j: nat, i: nat, on: Path) {
    && j < i <= |acts| && i < |ws| && Loses(ws[j], acts[j], on)
    && forall k | j < k < i :: !Mends(ws[k], acts[k], on)
  }

  lemma LostStep(w: World, a: Action, v: World, on: Path)
    requires Inv(w) && Step(w, a, v)
    ensures on in v.lost <==> Loses(w, a, on) || (on in w.lost && !Mends(w, a, on))
  {
    match a
    case Takes(found, says, os) =>
      match w.queue[0] {
        case Watch(p, ask) => ReleaseKeeps(w.holds, p, w.lost);
        case Unwatch(p) =>
        case Backend =>
      }
    case _ =>
  }

  /** What is lost, from the history alone. */
  lemma {:induction false} LostIsHistory(ws: seq<World>, acts: seq<Action>, i: nat, on: Path)
    requires Run(ws, acts) && i < |ws|
    ensures on in ws[i].lost <==> exists j :: LostAt(ws, acts, j, i, on)
  {
    hide Inv, Step, Loses, Mends;
    if i == 0 {
      assert Start(ws[0]);
    } else {
      LostIsHistory(ws, acts, i - 1, on);
      RunInv(ws, acts, i - 1);
      LostStep(ws[i - 1], acts[i - 1], ws[i - 1 + 1], on);
      if Loses(ws[i - 1], acts[i - 1], on) {
        assert LostAt(ws, acts, i - 1, i, on);
      }
      if on in ws[i - 1].lost && !Mends(ws[i - 1], acts[i - 1], on) {
        var j :| LostAt(ws, acts, j, i - 1, on);
        assert LostAt(ws, acts, j, i, on);
      }
      forall j: nat | LostAt(ws, acts, j, i, on)
        ensures on in ws[i].lost
      {
        if j < i - 1 {
          assert LostAt(ws, acts, j, i - 1, on);
          assert !Mends(ws[i - 1], acts[i - 1], on);
        }
      }
    }
  }

  /** Over every run, a registration the worker counts on is missing from the watcher
      if and only if a step lost it and none since has restored it or taken it down. */
  lemma MissingIsLost(ws: seq<World>, acts: seq<Action>, i: nat, on: Path)
    requires Run(ws, acts) && i < |ws|
    ensures on in ws[i].holds.kernel && on !in ws[i].holds.os <==> exists j :: LostAt(ws, acts, j, i, on)
  {
    RunInv(ws, acts, i);
    LostIsHistory(ws, acts, i, on);
  }

  /** So a path told it is active is watched, with all below it if it was registered
      so, if and only if what it rests on is not lost. */
  lemma ActiveIsWatched(ws: seq<World>, acts: seq<Action>, i: nat, p: Path)
    requires Run(ws, acts) && i < |ws| && Idle(ws[i]) && p in ws[i].table && ws[i].table[p].state.Active?
    ensures var h := ws[i].holds;
      && p in h.held
      && (h.held[p].on in h.os && (h.held[p].tree ==> h.os[h.held[p].on])
          <==> !exists j :: LostAt(ws, acts, j, i, h.held[p].on))
  {
    var h := ws[i].holds;
    IdleAgrees(ws, acts, i, p);
    var on := h.held[p].on;
    RunInv(ws, acts, i);
    HeldRests(h, p);
    assert OnOk(h, on) && p in Resting(h.held, on);
    MissingIsLost(ws, acts, i, on);
  }

  /** A superseded ask never overwrites a later one: settling writes an ask only while
      it is the path's latest, and then no command about the path is left to come. */
  lemma SettleIsLatest(ws: seq<World>, acts: seq<Action>, i: nat)
    requires Run(ws, acts) && i < |acts| && acts[i] == Settles
    ensures var w, v := ws[i], ws[i + 1];
      var p := w.working.value.path;
      && (v.table == w.table || LastAbout(Ahead(w), p).None?)
      && (LastAbout(Ahead(w), p).None? <==> p in w.table && w.table[p].ask == w.working.value.ask)
      && v.table.Keys == w.table.Keys
      && (forall q | q in w.table && q != p :: v.table[q] == w.table[q])
  {
    var w := ws[i];
    RunInv(ws, acts, i);
    assert Step(w, acts[i], ws[i + 1]);
    assert PathOk(w, w.working.value.path);
    LastIsOne(Ahead(w), w.working.value.path);
  }

  /** A path pending is a path still to be settled: its latest ask is on its way, or
      being worked on. */
  lemma PendingIsComing(ws: seq<World>, acts: seq<Action>, i: nat, p: Path)
    requires Run(ws, acts) && i < |ws| && p in ws[i].table && ws[i].table[p].state.Pending?
    ensures var w := ws[i];
      LastAbout(Ahead(w), p) == Some(Watch(p, w.table[p].ask))
      || (LastAbout(Ahead(w), p).None? && w.working.Some? && w.working.value.path == p && w.working.value.ask == w.table[p].ask)
  {
    RunInv(ws, acts, i);
    assert PathOk(ws[i], p);
    LastIsOne(Ahead(ws[i]), p);
  }

  /** The registration `q` rests on stands in `g`, and gives no less. */
  predicate StillRests(h: Holds, g: Holds, q: Path)
    requires q in h.held
  {
    var on := h.held[q].on;
    && q in g.held && g.held[q] == h.held[q]
    && on in h.kernel && on in g.kernel && (h.kernel[on].recursive ==> g.kernel[on].recursive)
  }

  lemma ReleaseOthers(h: Holds, p: Path, q: Path, lost: set<Path>)
    requires Counted(h) && Mirrored(h, lost) && q in h.held && q != p
    ensures StillRests(h, Released(h, p), q)
  {
    var on, r := h.held[q].on, Released(h, p);
    ReleaseKeeps(h, p, lost);
    assert OnOk(h, on) && OnOk(r, on);
    assert q in Resting(h.held, on) && q in Resting(r.held, on);
  }

  /** Taking a command, whether or not it succeeds, changes no other path's hold and
      weakens no registration another path rests on. */
  lemma OthersKeepTheirs(ws: seq<World>, acts: seq<Action>, i: nat, q: Path)
    requires Run(ws, acts) && i < |acts| && acts[i].Takes? && q in ws[i].holds.held
    requires ws[i].queue != [] && !About(ws[i].queue[0], q)
    ensures StillRests(ws[i].holds, ws[i + 1].holds, q)
  {
    var w := ws[i];
    RunInv(ws, acts, i);
    assert Step(w, acts[i], ws[i + 1]);
    match w.queue[0]
    case Watch(p, ask) =>
      var Takes(found, says, os) := acts[i];
      ReleaseOthers(w.holds, p, q, w.lost);
      ReleaseKeeps(w.holds, p, w.lost);
      RegisterKeeps(Released(w.holds, p), p, found, says, LostAfterRelease(Released(w.holds, p), w.lost));
    case Unwatch(p) => ReleaseOthers(w.holds, p, q, w.lost);
    case Backend =>
      assert OnOk(w.holds, w.holds.held[q].on);
      assert q in Resting(w.holds.held, w.holds.held[q].on);
  }

  // ---- It drains --------------------------------------------------------

  /** The steps the worker and a send still owe. */
  function Left(w: World): nat {
    (if w.sending.Some? then 3 else 0) + 2 * |w.queue| + if w.working.Some? then 1 else 0
  }

  /** With no further call, the worker is idle within `Left` steps; and until it is,
      some step of its own or the send is there to be taken. */
  lemma {:induction false} DrainsOut(ws: seq<World>, acts: seq<Action>, i: nat, j: nat)
    requires Run(ws, acts) && i <= j < |ws|
    requires forall k | i <= k < j :: acts[k].Sends? || acts[k].Takes? || acts[k].Settles?
    ensures Left(ws[j]) + (j - i) <= Left(ws[i])
    ensures !Idle(ws[j]) <==> Left(ws[j]) > 0
    decreases j - i
  {
    if i < j {
      DrainsOut(ws, acts, i, j - 1);
      assert Step(ws[j - 1], acts[j - 1], ws[j]);
    }
  }

  lemma BusyCanStep(w: World) returns (a: Action, v: World)
    requires !Idle(w)
    ensures (a.Sends? || a.Takes? || a.Settles?) && Step(w, a, v)
  {
    if w.sending.Some? {
      a, v := Sends, w.(sending := None, queue := w.queue + [w.sending.value]);
    } else if w.working.Some? {
      var k := w.working.value;
      a, v := Settles, w.(working := None,
                          table := if k.path in w.table && w.table[k.path].ask == k.ask
                                   then w.table[k.path := Asked(k.ask, k.state)] else w.table);
    } else {
      a := Takes(None, Answers(true, true), map[]);
      match w.queue[0]
      case Watch(p, ask) =>
        v := w.(queue := w.queue[1..], holds := Released(w.holds, p), working := Some(Working(p, ask, Failed)),
                lost := LostAfterRelease(Released(w.holds, p), w.lost));
      case Unwatch(p) =>
        v := w.(queue := w.queue[1..], holds := Released(w.holds, p),
                lost := LostAfterRelease(Released(w.holds, p), w.lost));
      case Backend =>
        v := w.(queue := w.queue[1..], holds := w.holds.(os := map[]), lost := w.holds.kernel.Keys);
        assert w.holds.kernel.Keys - {} == w.holds.kernel.Keys && v.holds.os.Keys == {};
    }
  }

  // ---- What a path is told ----------------------------------------------

  /** The step is an attempt to register `p`. */
  predicate Attempts(w: World, a: Action, p: Path) {
    a.Takes? && w.queue != [] && w.queue[0].Watch? && w.queue[0].path == p
  }

  /** What becomes of the attempt: it fails if there is nowhere to watch, or if the watcher
      had to be asked and refused; and else the path is active where it was found. */
  function Attempted(w: World, a: Action, p: Path): WatchState {
    if !a.Takes? then Pending
    else if Fails(Released(w.holds, p), a.found, a.says) then Failed
    else if a.found.Some? && a.found.value.on != p then Active(Some(a.found.value.on))
    else Active(None)
  }

  ghost predicate LastAttempt(ws: seq<World>, acts: seq<Action>, i: nat, p: Path, k: nat) {
    && k < i <= |acts| && i < |ws| && Attempts(ws[k], acts[k], p)
    && forall m | k < m < i :: !Attempts(ws[m], acts[m], p)
  }

  /** What the path is, or is about to be, told. */
  function ToBeTold(w: World, p: Path): WatchState
    requires p in w.table
  {
    if w.working.Some? && w.working.value.path == p then w.working.value.state else w.table[p].state
  }

  /** With no command about `p` left, its state is what became of the last attempt. */
  ghost predicate ToldRight(ws: seq<World>, acts: seq<Action>, i: nat, p: Path)
    requires i < |ws|
  {
    LastAbout(Ahead(ws[i]), p).None? && p in ws[i].table ==>
      exists k: nat :: LastAttempt(ws, acts, i, p, k) && ToBeTold(ws[i], p) == Attempted(ws[k], acts[k], p)
  }

  lemma ToldAfterCall(w: World, c: Command, v: World, p: Path)
    requires w.sending.None? && v.queue == w.queue && v.sending == Some(c) && v.working == w.working
    requires c.Watch? ==> v.table == w.table[c.path := Asked(c.ask, Pending)]
    requires c.Unwatch? ==> v.table == w.table - {c.path}
    requires c.Backend? ==> v.table == w.table
    requires LastAbout(Ahead(v), p).None? && p in v.table
    ensures LastAbout(Ahead(w), p).None? && p in w.table && ToBeTold(v, p) == ToBeTold(w, p)
  {
    assert Ahead(v) == Ahead(w) + [c];
    LastOfMore(Ahead(w), c, p);
  }

  lemma ToldAfterTake(w: World, found: Option<Hold>, says: Answers, os: map<Path, bool>, v: World, p: Path)
    requires PathOk(w, p) && Take(w, found, says, os, v) && !(w.queue[0].Watch? && w.queue[0].path == p)
    requires LastAbout(Ahead(v), p).None? && p in v.table
    ensures LastAbout(Ahead(w), p).None? && p in w.table && ToBeTold(v, p) == ToBeTold(w, p)
  {
    hide Registered, Released, LostAfter, Agrees;
    TakeAhead(w);
    LastOfRest(Ahead(w), p);
    assert Ahead(v) == Ahead(w)[1..];
  }

  lemma ToldAfterSettle(w: World, v: World, p: Path)
    requires PathOk(w, p) && Settle(w, v) && LastAbout(Ahead(v), p).None? && p in v.table
    ensures LastAbout(Ahead(w), p).None? && p in w.table && ToBeTold(v, p) == ToBeTold(w, p)
  {
    assert Ahead(v) == Ahead(w);
  }

  /** One step that is not an attempt at `p`. */
  lemma ToldAfter(w: World, a: Action, v: World, p: Path)
    requires Inv(w) && Step(w, a, v) && !Attempts(w, a, p)
    requires LastAbout(Ahead(v), p).None? && p in v.table
    ensures LastAbout(Ahead(w), p).None? && p in w.table && ToBeTold(v, p) == ToBeTold(w, p)
  {
    assert PathOk(w, p);
    hide Inv, PathOk, Settle, LastAbout, ToBeTold;
    match a
    case Asks(q) => ToldAfterCall(w, Watch(q, w.asks + 1), v, p);
    case LetsGo(q) => ToldAfterCall(w, Unwatch(q), v, p);
    case Swaps => ToldAfterCall(w, Backend, v, p);
    case Sends =>
      assert Ahead(v) == Ahead(w);
      SameToBeTold(w, v, p);
    case Takes(found, says, os) => ToldAfterTake(w, found, says, os, v, p);
    case Settles => ToldAfterSettle(w, v, p);
  }

  lemma SameToBeTold(w: World, v: World, p: Path)
    requires v.table == w.table && v.working == w.working && p in w.table
    ensures ToBeTold(v, p) == ToBeTold(w, p)
  {
  }

  lemma AttemptTells(w: World, a: Action, v: World, p: Path)
    requires Step(w, a, v) && Attempts(w, a, p)
    ensures v.working.Some? && v.working.value.path == p && v.working.value.state == Attempted(w, a, p)
  {
    RegisteredExactly(Released(w.holds, p), p, a.found, a.says);
  }

  lemma {:induction false} AlwaysToldRight(ws: seq<World>, acts: seq<Action>, i: nat, p: Path)
    requires Run(ws, acts) && i < |ws|
    ensures ToldRight(ws, acts, i, p)
  {
    hide Inv, Step, LastAbout, Attempts, Attempted, ToBeTold;
    if i == 0 {
      assert ws[0].table == map[];
    } else {
      AlwaysToldRight(ws, acts, i - 1, p);
      RunInv(ws, acts, i - 1);
      var w, a := ws[i - 1], acts[i - 1];
      assert Step(w, a, ws[i - 1 + 1]);
      if LastAbout(Ahead(ws[i]), p).None? && p in ws[i].table {
        if Attempts(w, a, p) {
          AttemptTells(w, a, ws[i], p);
          assert ToBeTold(ws[i], p) == Attempted(w, a, p) by { WorkingIsToBeTold(ws[i], p); }
          assert LastAttempt(ws, acts, i, p, i - 1);
        } else {
          ToldAfter(w, a, ws[i], p);
          var k: nat :| LastAttempt(ws, acts, i - 1, p, k) && ToBeTold(w, p) == Attempted(ws[k], acts[k], p);
          assert LastAttempt(ws, acts, i, p, k);
        }
      }
    }
  }

  lemma WorkingIsToBeTold(w: World, p: Path)
    requires p in w.table && w.working.Some? && w.working.value.path == p
    ensures ToBeTold(w, p) == w.working.value.state
  {
  }

  /** Over every run, once drained, a path asked for has been attempted since, and is told
      what became of the last attempt: that it failed if and only if there was nowhere to
      watch, or the watcher had to be asked and refused. */
  lemma TellsTheLastAttempt(ws: seq<World>, acts: seq<Action>, i: nat, p: Path) returns (k: nat)
    requires Run(ws, acts) && i < |ws| && Idle(ws[i]) && p in ws[i].table
    ensures LastAttempt(ws, acts, i, p, k) && ws[i].table[p].state == Attempted(ws[k], acts[k], p)
    ensures ws[i].table[p].state.Failed? <==> Fails(Released(ws[k].holds, p), acts[k].found, acts[k].says)
  {
    AlwaysToldRight(ws, acts, i, p);
    assert Ahead(ws[i]) == [];
    k :| LastAttempt(ws, acts, i, p, k) && ToBeTold(ws[i], p) == Attempted(ws[k], acts[k], p);
  }

  // ---- A path told it is watched, and not -------------------------------

  lemma OneMore(ws: seq<World>, acts: seq<Action>, a: Action, v: World) returns (us: seq<World>, bs: seq<Action>)
    requires Run(ws, acts) && Step(ws[|acts|], a, v)
    ensures Run(us, bs) && us[|bs|] == v
  {
    hide Step;
    us, bs := ws + [v], acts + [a];
    forall i | 0 <= i < |bs|
      ensures Step(us[i], bs[i], us[i + 1])
    {
      assert i < |acts| ==> us[i] == ws[i] && us[i + 1] == ws[i + 1] && bs[i] == acts[i];
    }
  }

  /** The state once a path not held is asked for and its ask settled. */
  function Round(w: World, p: Path, found: Option<Hold>, says: Answers): World {
    var (r, ok) := Registered(w.holds, p, found, says);
    w.(table := w.table[p := Asked(w.asks + 1, StateOf(p, found, ok))], asks := w.asks + 1, holds := r,
       lost := LostAfter(w.holds, found, says, LostAfterRelease(w.holds, w.lost)))
  }

  lemma RoundRuns(ws: seq<World>, acts: seq<Action>, p: Path, found: Option<Hold>, says: Answers)
    returns (us: seq<World>, bs: seq<Action>)
    requires Run(ws, acts) && Idle(ws[|acts|]) && p !in ws[|acts|].holds.held
    ensures Run(us, bs) && us[|bs|] == Round(ws[|acts|], p, found, says)
  {
    assert |ws| == |acts| + 1;
    hide Run, Registered, LostAfter;
    var w, n := ws[|acts|], ws[|acts|].asks + 1;
    var w1 := w.(table := w.table[p := Asked(n, Pending)], asks := n, sending := Some(Watch(p, n)));
    us, bs := OneMore(ws, acts, Asks(p), w1);
    var w2 := w1.(sending := None, queue := [Watch(p, n)]);
    us, bs := OneMore(us, bs, Sends, w2);
    var (r, ok) := Registered(w.holds, p, found, says);
    var w3 := w2.(queue := [], holds := r, working := Some(Working(p, n, StateOf(p, found, ok))),
                  lost := LostAfter(w.holds, found, says, LostAfterRelease(w.holds, w.lost)));
    assert w2.queue[1..] == [];
    us, bs := OneMore(us, bs, Takes(found, says, map[]), w3);
    var w4 := Round(w, p, found, says);
    assert w4.table == w3.table[p := Asked(n, StateOf(p, found, ok))];
    us, bs := OneMore(us, bs, Settles, w4);
  }

  /** An upgrade that fails and cannot be put back leaves a registration only the worker
      believes in. Here `missing` is watched through `dir`, and `dir` itself is then
      asked for; the next path below it is told it is watched. */
  lemma LostIsToldActive(dir: Path, missing: Path, next: Path) returns (ws: seq<World>, acts: seq<Action>)
    requires dir != missing && missing != next && dir != next
    ensures Run(ws, acts) && Idle(ws[|acts|])
    ensures var w := ws[|acts|];
      && next in w.table && w.table[next].state == Active(Some(dir))
      && next in w.holds.held && w.holds.held[next].on == dir && dir in w.holds.kernel && dir !in w.holds.os
  {
    var made, failed := Answers(true, true), Answers(false, false);
    var w0 := World(map[], 0, None, [], None, NO_HOLDS, {});
    ws, acts := [w0], [];
    var w1 := Round(w0, missing, Some(Hold(dir, false)), made);
    ws, acts := RoundRuns(ws, acts, missing, Some(Hold(dir, false)), made);
    assert w1.holds == Holds(map[missing := Hold(dir, false)], map[dir := Kernel(false, 1)], map[dir := false]);
    var w2 := Round(w1, dir, Some(Hold(dir, true)), failed);
    ws, acts := RoundRuns(ws, acts, dir, Some(Hold(dir, true)), failed);
    assert w2.holds == w1.holds.(os := map[]);
    ws, acts := RoundRuns(ws, acts, next, Some(Hold(dir, false)), made);
  }
}
