/** The registrar as src/watcher.rs writes it: the worker thread's maps, and the table
    it shares with its client, changed in place by each step. */
module WatchThread {
  import opened Prelude
  import opened Holds
  import opened Registrar

  /** `Worker`. `os` stands for the watcher, and `trees` remembers what each held path
      was registered for. */
  class Worker {
    var held: map<Path, Path>
    var kernel: map<Path, Kernel>
    var os: map<Path, bool>
    ghost var trees: map<Path, bool>

    ghost predicate Valid()
      reads this
    {
      held.Keys == trees.Keys && Counted(View())
    }

    ghost function View(): Holds
      reads this
      requires held.Keys == trees.Keys
    {
      Holds(map p | p in held :: Hold(held[p], trees[p]), kernel, os)
    }

    constructor ()
      ensures Valid() && View() == NO_HOLDS
    {
      held, kernel, os, trees := map[], map[], map[], map[];
      new;
      forall on
        ensures OnOk(NO_HOLDS, on)
      {
      }
      assert View() == NO_HOLDS;
    }

    /** `release`: the last path to leave a registration takes it down. */
    method Release(path: Path)
      requires Valid()
      modifies this
      ensures Valid() && View() == Released(old(View()), path)
    {
      ghost var was := View();
      hide Counted;
      ReleasedCounted(was, path);
      if path !in held {
        return;
      }
      var on := held[path];
      HeldRests(was, path);
      held, trees := held - {path}, trees - {path};
      if on in kernel {
        kernel := kernel[on := kernel[on].(users := kernel[on].users - 1)];
        if kernel[on].users == 0 {
          kernel := kernel - {on};
          os := os - {on};
        }
      }
      assert View().held == Released(was, path).held;
      assert View().kernel == Released(was, path).kernel;
    }

    /** `acquire`: whether the registration was made. */
    method Acquire(on: Path, recursive: bool, says: Answers) returns (made: bool)
      requires held.Keys == trees.Keys
      modifies this`kernel, this`os
      ensures made <==> Acquired(old(View()), on, recursive, says).Ok?
      ensures View() == match Acquired(old(View()), on, recursive, says) case Ok(got) => got case Err(left) => left
    {
      if on in kernel {
        if recursive && !kernel[on].recursive {
          os := os - {on};
          if says.made {
            os := os[on := true];
          } else {
            if says.back {
              os := os[on := false];
            }
            return false;
          }
          kernel := kernel[on := Kernel(true, kernel[on].users)];
        }
        kernel := kernel[on := kernel[on].(users := kernel[on].users + 1)];
        return true;
      }
      if !says.made {
        return false;
      }
      os := os[on := recursive];
      kernel := kernel[on := Kernel(recursive, 1)];
      return true;
    }

    /** `register`, of a path released first. */
    method Register(path: Path, found: Option<Hold>, says: Answers) returns (state: WatchState)
      requires Valid() && path !in held
      modifies this
      ensures Valid() && View() == Registered(old(View()), path, found, says).0
      ensures state == StateOf(path, found, Registered(old(View()), path, found, says).1)
    {
      ghost var was := View();
      hide Counted, Acquired;
      RegisteredCounted(was, path, found, says);
      match found
      case None => return Failed;
      case Some(to) =>
        var made := Acquire(to.on, to.tree, says);
        if !made {
          return Failed;
        }
        held, trees := held[path := to.on], trees[path := to.tree];
        assert View().held == was.held[path := to];
        assert View() == Registered(was, path, found, says).0;
        return Active(if to.on != path then Some(to.on) else None);
    }

    /** `Command::Backend`: the new watcher takes what it can of every registration. */
    method Swap(taken: map<Path, bool>)
      requires Valid()
      modifies this`os
      ensures Valid() && View() == old(View()).(os := taken)
    {
      ghost var was := View();
      os := taken;
      forall on
        ensures OnOk(View(), on)
      {
        assert OnOk(was, on);
      }
    }
  }

  /** `Registrar` and its worker: the table they share, the command the client is
      sending, the commands on their way, and the path the worker has yet to settle. */
  class Watches {
    const worker: Worker
    var table: map<Path, Asked>
    var asks: nat
    var sending: Option<Command>
    var queue: seq<Command>
    var working: Option<Working>
    ghost var lost: set<Path>

    ghost function View(): World
      reads this, worker
      requires worker.held.Keys == worker.trees.Keys
    {
      World(table, asks, sending, queue, working, worker.View(), lost)
    }

    ghost predicate Valid()
      reads this, worker
    {
      worker.Valid() && Inv(View())
    }

    constructor ()
      ensures Valid() && Start(View()) && fresh(worker)
    {
      var w := new Worker();
      worker, table, asks, sending, queue, working, lost := w, map[], 0, None, [], None, {};
      new;
      StartKeeps(View());
    }

    /** `watch`, up to its command: whatever was on its way for the path, this ask is
        the one that will settle it. */
    method Ask(path: Path)
      requires Valid() && sending.None?
      modifies this
      ensures Valid() && Step(old(View()), Asks(path), View())
      ensures LastAbout(Ahead(View()), path) == Some(Watch(path, table[path].ask))
    {
      hide Inv;
      ghost var was := View();
      asks := asks + 1;
      table := table[path := Asked(asks, Pending)];
      sending := Some(Watch(path, asks));
      StepKeeps(was, Asks(path), View());
      LastOfMore(queue, Watch(path, asks), path);
    }

    /** `unwatch`, up to its command: whatever was on its way for the path, it will hold
        nothing. */
    method Drop(path: Path)
      requires Valid() && sending.None?
      modifies this
      ensures Valid() && Step(old(View()), LetsGo(path), View())
      ensures LastAbout(Ahead(View()), path) == Some(Unwatch(path))
    {
      hide Inv;
      ghost var was := View();
      table := table - {path};
      sending := Some(Unwatch(path));
      StepKeeps(was, LetsGo(path), View());
      LastOfMore(queue, Unwatch(path), path);
    }

    /** The command of a client between its two steps is on its way. */
    method Send()
      requires Valid() && sending.Some?
      modifies this
      ensures Valid() && Step(old(View()), Sends, View()) && Ahead(View()) == old(Ahead(View()))
    {
      hide Inv;
      ghost var was := View();
      queue := queue + [sending.value];
      sending := None;
      StepKeeps(was, Sends, View());
    }

    /** One command of `run`, up to settling it: released first, then registered. */
    method Take(found: Option<Hold>, says: Answers, taken: map<Path, bool>)
      requires Valid() && working.None? && queue != []
      requires forall on | on in taken :: on in worker.kernel && taken[on] == worker.kernel[on].recursive
      modifies this, worker
      ensures Valid() && Step(old(View()), Takes(found, says, taken), View())
    {
      hide Inv, Counted, Registered, LostAfter, LostAfterRelease, StateOf;
      ghost var was := View();
      var command := queue[0];
      queue := queue[1..];
      match command {
        case Watch(path, ask) =>
          worker.Release(path);
          ghost var released := worker.View();
          NotHeld(was.holds, path);
          var state := worker.Register(path, found, says);
          working := Some(Working(path, ask, state));
          lost := LostAfter(released, found, says, LostAfterRelease(released, lost));
        case Unwatch(path) =>
          worker.Release(path);
          lost := LostAfterRelease(worker.View(), lost);
        case Backend =>
          worker.Swap(taken);
          lost := worker.kernel.Keys - taken.Keys;
      }
      StepKeeps(was, Takes(found, says, taken), View());
    }

    /** The worker settles an ask. It writes it if and only if no later command about the
        path is on its way, and what it writes is then what it holds. */
    method Settle() returns (settled: bool)
      requires Valid() && working.Some?
      modifies this
      ensures Valid() && Step(old(View()), Settles, View())
      ensures var k := old(working.value);
        && (settled <==> old(LastAbout(Ahead(View()), k.path)).None?)
        && (settled ==> k.path in table && Agrees(View().holds, k.path, table[k.path].state))
        && (!settled ==> table == old(table))
    {
      ghost var was := View();
      var k := working.value;
      LatestOrNot(was);
      hide Inv;
      settled := k.path in table && table[k.path].ask == k.ask;
      if settled {
        table := table[k.path := Asked(k.ask, k.state)];
      }
      working := None;
      StepKeeps(was, Settles, View());
    }
  }

  lemma NotHeld(h: Holds, path: Path)
    ensures path !in Released(h, path).held
  {
  }

  /** The ask being worked on is the path's latest just while no command about the path
      is on its way. */
  lemma LatestOrNot(w: World)
    requires Inv(w) && w.working.Some?
    ensures var k := w.working.value;
      && (LastAbout(Ahead(w), k.path).None? <==> k.path in w.table && w.table[k.path].ask == k.ask)
      && Agrees(w.holds, k.path, k.state)
  {
    var p := w.working.value.path;
    assert PathOk(w, p);
    LastIsOne(Ahead(w), p);
  }
}
