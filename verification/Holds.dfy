/** The kernel registrations of the watch worker (src/watcher.rs): which path rests
    on which registration, how many rest on each, and what the watcher really has. */
module Holds {
  import opened Prelude

  type Path = string

  /** What a path was registered for: on what, and whether with all below it. */
  datatype Hold = Hold(on: Path, tree: bool)

  datatype Kernel = Kernel(recursive: bool, users: nat)

  /** `Worker::held` and `Worker::kernel`, and the watcher's own registrations, each
      recursive or not. A hold's `tree` is what the worker was asked for: it keeps no
      such field, but the registration must go on giving it. */
  datatype Holds = Holds(held: map<Path, Hold>, kernel: map<Path, Kernel>, os: map<Path, bool>)

  const NO_HOLDS := Holds(map[], map[], map[])

  /** What the watcher answers: to a registration, and to the entries-only one made
      again when it cannot be made recursive. */
  datatype Answers = Answers(made: bool, back: bool)

  // ---- The operations ---------------------------------------------------

  /** `release`. */
  function Released(h: Holds, path: Path): Holds {
    if path !in h.held then h
    else
      var on := h.held[path].on;
      var held := h.held - {path};
      if on !in h.kernel then h.(held := held)
      else if h.kernel[on].users <= 1 then Holds(held, h.kernel - {on}, h.os - {on})
      else h.(held := held, kernel := h.kernel[on := h.kernel[on].(users := h.kernel[on].users - 1)])
  }

  /** `acquire`: one more path resting on `on`, or the holds a failure leaves. */
  function Acquired(h: Holds, on: Path, recursive: bool, says: Answers): Result<Holds, Holds> {
    if on in h.kernel then
      var k := h.kernel[on];
      if recursive && !k.recursive then
        if says.made then
          Ok(h.(kernel := h.kernel[on := Kernel(true, k.users + 1)], os := h.os[on := true]))
        else Err(h.(os := if says.back then h.os[on := false] else h.os - {on}))
      else Ok(h.(kernel := h.kernel[on := k.(users := k.users + 1)]))
    else if says.made then Ok(h.(kernel := h.kernel[on := Kernel(recursive, 1)], os := h.os[on := recursive]))
    else Err(h)
  }

  /** `register`, of a path that rests on nothing: the holds after, and whether it is
      registered. `found` is where `where_to_watch` puts it. */
  function Registered(h: Holds, path: Path, found: Option<Hold>, says: Answers): (Holds, bool) {
    match found
    case None => (h, false)
    case Some(to) =>
      match Acquired(h, to.on, to.tree, says)
      case Err(left) => (left, false)
      case Ok(got) => (got.(held := got.held[path := to]), true)
  }

  // ---- Accounting -------------------------------------------------------

  function Resting(held: map<Path, Hold>, on: Path): set<Path> {
    set p | p in held && held[p].on == on
  }

  /** The registration of `on` is counted, and gives each path on it what it asked. */
  ghost predicate OnOk(h: Holds, on: Path) {
    && (on in h.kernel <==> Resting(h.held, on) != {})
    && (on in h.kernel ==> h.kernel[on].users == |Resting(h.held, on)| > 0)
    && (on in h.kernel ==> forall p | p in Resting(h.held, on) && h.held[p].tree :: h.kernel[on].recursive)
  }

  /** Every registration's `users` is the number of held paths resting on it, and
      positive; the registered paths are those that some held path rests on; and a
      path registered with all below it rests on a recursive registration. */
  ghost predicate Counted(h: Holds) {
    forall on {:trigger OnOk(h, on)} :: OnOk(h, on)
  }

  /** The watcher has nothing the worker does not know of, and lacks exactly the
      registrations of `lost`. */
  ghost predicate Mirrored(h: Holds, lost: set<Path>) {
    && (forall on | on in h.os :: on in h.kernel && h.os[on] == h.kernel[on].recursive)
    && lost == h.kernel.Keys - h.os.Keys
  }

  // ---- What the watcher has lost ----------------------------------------

  /** The attempt at `found` is an upgrade of a registration of entries only. */
  predicate Upgrades(h: Holds, found: Option<Hold>, on: Path) {
    found.Some? && found.value.on == on && on in h.kernel && found.value.tree && !h.kernel[on].recursive
  }

  /** A lost registration taken down is lost no more. */
  function LostAfterRelease(released: Holds, lost: set<Path>): set<Path> {
    lost * released.kernel.Keys
  }

  /** An upgrade that fails and cannot be put back loses its registration; one that is
      made, or put back, restores it. */
  function LostAfter(h: Holds, found: Option<Hold>, says: Answers, lost: set<Path>): set<Path> {
    if found.None? || !Upgrades(h, found, found.value.on) then lost
    else if says.made || says.back then lost - {found.value.on}
    else lost + {found.value.on}
  }

  lemma RestingWithout(held: map<Path, Hold>, path: Path, on: Path)
    requires path in held
    ensures Resting(held - {path}, on) == Resting(held, on) - {path}
    ensures held[path].on == on ==> |Resting(held - {path}, on)| == |Resting(held, on)| - 1
  {
    assert Resting(held - {path}, on) == Resting(held, on) - {path};
  }

  lemma RestingWith(held: map<Path, Hold>, path: Path, to: Hold, on: Path)
    requires path !in held
    ensures Resting(held[path := to], on) == if to.on == on then Resting(held, on) + {path} else Resting(held, on)
    ensures |Resting(held[path := to], on)| == |Resting(held, on)| + if to.on == on then 1 else 0
  {
    var more := held[path := to];
    assert Resting(more, on) == if to.on == on then Resting(held, on) + {path} else Resting(held, on);
  }

  lemma HeldRests(h: Holds, path: Path)
    requires Counted(h) && path in h.held
    ensures h.held[path].on in h.kernel && h.kernel[h.held[path].on].users > 0
  {
    assert OnOk(h, h.held[path].on);
    assert path in Resting(h.held, h.held[path].on);
  }

  lemma ReleasedCounted(h: Holds, path: Path)
    requires Counted(h)
    ensures Counted(Released(h, path))
  {
    forall on
      ensures OnOk(Released(h, path), on)
    {
      ReleasedOk(h, path, on);
    }
  }

  lemma RegisteredCounted(h: Holds, path: Path, found: Option<Hold>, says: Answers)
    requires Counted(h) && path !in h.held
    ensures Counted(Registered(h, path, found, says).0)
  {
    forall on
      ensures OnOk(Registered(h, path, found, says).0, on)
    {
      RegisteredOk(h, path, found, says, on);
    }
  }

  lemma ReleasedOk(h: Holds, path: Path, on: Path)
    requires Counted(h)
    ensures OnOk(Released(h, path), on)
  {
    assert OnOk(h, on);
    if path in h.held {
      assert OnOk(h, h.held[path].on);
      RestingWithout(h.held, path, on);
      assert path in Resting(h.held, h.held[path].on);
    }
  }

  /** Letting a path go keeps the accounts, takes its registration down when it was
      the last on it, and leaves every other path's hold as it was. */
  lemma ReleaseKeeps(h: Holds, path: Path, lost: set<Path>)
    requires Counted(h) && Mirrored(h, lost)
    ensures var r := Released(h, path);
      && Counted(r) && Mirrored(r, LostAfterRelease(r, lost))
      && r.held == h.held - {path}
      && (forall on | on in r.kernel :: on in h.kernel && r.kernel[on].recursive == h.kernel[on].recursive)
      && (forall on | on in r.kernel && on in h.os :: on in r.os && r.os[on] == h.os[on])
  {
    var r := Released(h, path);
    forall on
      ensures OnOk(r, on)
    {
      ReleasedOk(h, path, on);
    }
    if path in h.held {
      assert OnOk(h, h.held[path].on);
      assert path in Resting(h.held, h.held[path].on);
    } else {
      assert h.held - {path} == h.held;
    }
  }

  lemma RegisteredOk(h: Holds, path: Path, found: Option<Hold>, says: Answers, on: Path)
    requires Counted(h) && path !in h.held
    ensures OnOk(Registered(h, path, found, says).0, on)
  {
    assert OnOk(h, on);
    if found.Some? {
      var to := found.value;
      assert OnOk(h, to.on);
      RestingWith(h.held, path, to, on);
    }
  }

  /** A registration keeps the accounts; it holds the path exactly when it succeeds,
      and whether or not it does, no other path's hold changes and no registration
      gives less than it gave. The watcher lacks exactly what was lost and not restored. */
  lemma RegisterKeeps(h: Holds, path: Path, found: Option<Hold>, says: Answers, lost: set<Path>)
    requires Counted(h) && Mirrored(h, lost) && path !in h.held
    ensures var (r, ok) := Registered(h, path, found, says);
      && Counted(r) && Mirrored(r, LostAfter(h, found, says, lost))
      && (ok ==> found.Some?)
      && r.held == (if ok then h.held[path := found.value] else h.held)
      && (!ok ==> r.kernel == h.kernel)
      && (forall on | on in h.kernel :: on in r.kernel && (h.kernel[on].recursive ==> r.kernel[on].recursive))
  {
    RegisteredCounted(h, path, found, says);
  }

  // ---- When a registration succeeds -------------------------------------

  /** The registration the worker has gives what is asked: it is recursive, or only the
      entries are asked for. */
  predicate AlreadyGives(h: Holds, to: Hold) {
    to.on in h.kernel && (h.kernel[to.on].recursive || !to.tree)
  }

  /** The attempt fails: there is nowhere to watch, or the watcher has to be asked and
      refuses. */
  predicate Fails(h: Holds, found: Option<Hold>, says: Answers) {
    found.None? || (!AlreadyGives(h, found.value) && !says.made)
  }

  /** A registration fails exactly in those cases. It counts one path more on the place,
      which is recursive if it was or is asked to be; the watcher is asked only where
      what there is does not do. A failure leaves what the watcher has, but for an upgrade
      that failed: that is put back without all below it, or lost. */
  lemma RegisteredExactly(h: Holds, path: Path, found: Option<Hold>, says: Answers)
    ensures var (r, ok) := Registered(h, path, found, says);
      && (ok <==> !Fails(h, found, says))
      && (ok ==>
            var to := found.value;
            && r.held == h.held[path := to]
            && r.kernel == h.kernel[to.on := Kernel((to.on in h.kernel && h.kernel[to.on].recursive) || to.tree,
                                                    1 + if to.on in h.kernel then h.kernel[to.on].users else 0)]
            && r.os == (if AlreadyGives(h, to) then h.os else h.os[to.on := to.tree]))
      && (!ok ==>
            && r.held == h.held && r.kernel == h.kernel
            && r.os == (if found.None? || found.value.on !in h.kernel then h.os
                        else if says.back then h.os[found.value.on := false] else h.os - {found.value.on}))
  {
  }
}
