/** The memos of one provider (src/cache.rs) under threads: what is written, evicted and
    invalidated at once. The index of directories is held through a write and through an
    eviction; each entry is held on its own; an invalidation copies the index and then
    visits one directory after another. */
module MemoSteps {
  import opened Prelude
  import opened Tree
  import opened Memos

  /** A memo: its directory and address. */
  type Place = (Dir, Addr)

  /** How far a write or an eviction has come: the index is held; the stamps of what goes
      are gone; so are their keys; and, of a write, the new stamp stands. */
  datatype Phase = Listed | Unstamped(gone: set<Addr>) | Cleared | Stamped

  datatype Holder = Writing(dir: Dir, addr: Addr, phase: Phase) | Evicting(dir: Dir, addr: Addr, phase: Phase)

  /** An invalidation at `node`: when it copied the index, the directories it has yet to
      visit, and the addresses it has yet to take the hash of where it is; `cause` is the
      Source write it follows, if it follows one. */
  datatype Walk = Walk(node: Addr, began: nat, todo: set<Dir>, at: Dir, rest: set<Addr>, cause: Option<nat>)

  /** The storing of a Source's result: whether the provider had any directory listed
      when it looked, when the result was stored, and the fields yet to be followed. */
  datatype Source = Source(fields: set<Seg>, listed: bool, stored: Option<nat>, todo: set<Seg>)

  /** `hashed` is when each hash that stands was stored. */
  datatype World = World(stamps: set<Place>, hashed: map<Place, nat>, index: set<Dir>, holder: Option<Holder>,
                         walks: seq<Walk>, sources: seq<Source>, clock: nat)

  const NO_MEMOS := World({}, map[], {}, None, [], [], 0)

  predicate HasMemo(stamps: set<Place>, dir: Dir) {
    exists p :: p in stamps && p.0 == dir
  }

  // ---- Steps ------------------------------------------------------------

  datatype Action =
    | BeginWrite(dir: Dir, addr: Addr)
    | BeginEvict(dir: Dir, addr: Addr)
    | DropStamps
    | DropKeys
    | StoreStamp
    | StoreKeys
    | Unlist
    | Copy(node: Addr)
    | Visit(walk: nat, dir: Dir)
    | Unhash(walk: nat, addr: Addr)
    | DropHash(dir: Dir, addr: Addr)
    | Look(fields: set<Seg>)
    | Store(source: nat)
    | Follow(source: nat, field: Seg)

  function SetPhase(h: Holder, p: Phase): Holder {
    h.(phase := p)
  }

  /** The memos a write or an eviction drops. */
  predicate Drops(h: Holder, a: Addr) {
    if h.Writing? then Overlaps(a, h.addr) else a == h.addr
  }

  /** `drop_memo_hash` takes what is called `hash` below the address: the hash of the memo
      there, or the keys of memos whose own address goes through that name. */
  predicate LosesHash(p: Place, dir: Dir, a: Addr) {
    p.0 == dir && a != [] && (p.1 == a || a + [HASH] <= p.1)
  }

  /** The keys at `c` have a hash. */
  predicate HashIn(f: Fields, c: Addr) {
    Lookup(f, c).Some? && Lookup(f, c).value.Object? && HASH in Lookup(f, c).value.fields
  }

  lemma {:induction false} UnhashedIn(f: Fields, a: Addr, c: Addr)
    requires HashIn(f, a)
    ensures var g := Insert(f, a, Object(Lookup(f, a).value.fields - {HASH}));
      HashIn(g, c) <==> HashIn(f, c) && !(c == a || a + [HASH] <= c)
    decreases |a|
  {
    var v := Object(Lookup(f, a).value.fields - {HASH});
    if c != [] && c[0] == a[0] {
      var m := f[a[0]].fields;
      assert a + [HASH] <= c <==> a[1..] + [HASH] <= c[1..];
      if |a| > 1 {
        UnhashedIn(m, a[1..], c[1..]);
        assert a[1] in m && Insert(m, a[1..], v).Keys == m.Keys;
      } else if |c| > 1 {
        assert a + [HASH] <= c <==> c[1] == HASH;
        assert Lookup(m - {HASH}, c[1..]) == if c[1] == HASH then None else Lookup(m, c[1..]);
      }
    }
  }

  /** That is what the tree of keys says, whatever stands at the address by now. */
  lemma LosesHashIs(s: Shelf, dir: Dir, a: Addr, c: Addr)
    ensures HasHash(Unhashed(s, a), c) <==> HasHash(s, c) && !LosesHash((dir, c), dir, a)
  {
    if HasHash(s, a) {
      UnhashedIn(s.keys, a, c);
    } else if a != [] && a + [HASH] <= c && HasHash(s, c) {
      BelowHash(s.keys, a, c);
    }
  }

  lemma {:induction false} BelowHash(f: Fields, a: Addr, c: Addr)
    requires a != [] && a + [HASH] <= c && Lookup(f, c).Some?
    ensures HashIn(f, a)
    decreases |a|
  {
    if |a| > 1 {
      assert a[1..] + [HASH] <= c[1..];
      BelowHash(f[a[0]].fields, a[1..], c[1..]);
    }
  }

  predicate InPhase(w: World, p: Phase) {
    w.holder.Some? && w.holder.value.phase == p
  }

  predicate Enabled(w: World, act: Action) {
    match act
    case BeginWrite(dir, a) => w.holder.None? && a != []
    case BeginEvict(dir, a) => w.holder.None?
    case DropStamps => InPhase(w, Listed)
    case DropKeys => w.holder.Some? && w.holder.value.phase.Unstamped?
    case StoreStamp => InPhase(w, Cleared) && w.holder.value.Writing?
    case StoreKeys => InPhase(w, Stamped) && w.holder.value.Writing?
    case Unlist => InPhase(w, Cleared) && w.holder.value.Evicting?
    case Copy(node) => w.holder.None?
    case Visit(k, dir) => k < |w.walks| && w.walks[k].rest == {} && dir in w.walks[k].todo
    case Unhash(k, a) => k < |w.walks| && a in w.walks[k].rest
    case DropHash(dir, a) => true
    case Look(fields) => w.holder.None?
    case Store(i) => i < |w.sources| && w.sources[i].stored.None?
    case Follow(i, f) =>
      w.holder.None? && i < |w.sources| && w.sources[i].stored.Some? && w.sources[i].listed && f in w.sources[i].todo
  }

  /** What a step changes but the clock. */
  function Effect(w: World, act: Action): World
    requires Enabled(w, act)
  {
    match act
    case BeginWrite(dir, a) => w.(index := w.index + {dir}, holder := Some(Writing(dir, a, Listed)))
    case BeginEvict(dir, a) => w.(holder := Some(Evicting(dir, a, Listed)))
    case DropStamps =>
      var h := w.holder.value;
      var gone := set p | p in w.stamps && p.0 == h.dir && Drops(h, p.1) :: p.1;
      w.(stamps := (set p | p in w.stamps && !(p.0 == h.dir && p.1 in gone)), holder := Some(SetPhase(h, Unstamped(gone))))
    case DropKeys =>
      var h := w.holder.value;
      w.(hashed := (map p | p in w.hashed && !(p.0 == h.dir && p.1 in h.phase.gone) :: w.hashed[p]),
         holder := Some(SetPhase(h, Cleared)))
    case StoreStamp =>
      var h := w.holder.value;
      w.(stamps := w.stamps + {(h.dir, h.addr)}, holder := Some(SetPhase(h, Stamped)))
    case StoreKeys =>
      var h := w.holder.value;
      w.(hashed := w.hashed[(h.dir, h.addr) := w.clock], holder := None)
    case Unlist =>
      var h := w.holder.value;
      w.(index := if HasMemo(w.stamps, h.dir) then w.index else w.index - {h.dir}, holder := None)
    case Copy(node) => w.(walks := w.walks + [Walk(node, w.clock, w.index, None, {}, None)])
    case Visit(k, dir) =>
      var walk := w.walks[k];
      var here := set p | p in w.stamps && p.0 == dir && Overlaps(p.1, walk.node) :: p.1;
      w.(walks := w.walks[k := walk.(todo := walk.todo - {dir}, at := dir, rest := here)])
    case Unhash(k, a) =>
      var walk := w.walks[k];
      w.(hashed := (map p | p in w.hashed && !LosesHash(p, walk.at, a) :: w.hashed[p]),
         walks := w.walks[k := walk.(rest := walk.rest - {a})])
    case DropHash(dir, a) => w.(hashed := (map p | p in w.hashed && !LosesHash(p, dir, a) :: w.hashed[p]))
    case Look(fields) =>
      w.(sources := w.sources + [Source(fields, w.index != {}, None, if w.index != {} then fields else {})])
    case Store(i) => w.(sources := w.sources[i := w.sources[i].(stored := Some(w.clock))])
    case Follow(i, f) =>
      w.(walks := w.walks + [Walk([f], w.clock, w.index, None, {}, Some(i))],
         sources := w.sources[i := w.sources[i].(todo := w.sources[i].todo - {f})])
  }

  function Step(w: World, act: Action): World
    requires Enabled(w, act)
  {
    Effect(w, act).(clock := w.clock + 1)
  }

  ghost predicate Run(ws: seq<World>, acts: seq<Action>) {
    && |ws| == |acts| + 1 && ws[0] == NO_MEMOS
    && forall i | 0 <= i < |acts| :: Enabled(ws[i], acts[i]) && ws[i + 1] == Step(ws[i], acts[i])
  }

  // ---- The invariant ----------------------------------------------------

  /** A memo's directory is listed, and a directory listed holds a memo or is held. */
  ghost predicate IndexOk(w: World) {
    && (forall p | p in w.stamps :: p.0 in w.index && p.1 != [])
    && (forall d | d in w.index :: HasMemo(w.stamps, d) || (w.holder.Some? && w.holder.value.dir == d))
    && (w.holder.Some? ==>
          var h := w.holder.value;
          && (h.Writing? ==> h.dir in w.index && h.addr != [] && (h.phase.Stamped? ==> (h.dir, h.addr) in w.stamps)))
  }

  /** The memo at `p` is being dropped: its stamp is gone, its keys are not. */
  predicate Going(w: World, p: Place) {
    w.holder.Some? && w.holder.value.dir == p.0 && w.holder.value.phase.Unstamped? && p.1 in w.holder.value.phase.gone
  }

  /** Every hash is that of a memo, or of one being dropped; a memo written has no hash
      until its own is stored. */
  ghost predicate HashesOk(w: World) {
    && (forall p | p in w.hashed :: w.hashed[p] < w.clock && (p in w.stamps || Going(w, p)))
    && (w.holder.Some? && w.holder.value.Writing? && !w.holder.value.phase.Listed? ==>
          var h := w.holder.value;
          && (!h.phase.Stamped? ==> forall a | (h.dir, a) in w.stamps :: !Overlaps(a, h.addr))
          && (h.phase.Stamped? || h.phase.Cleared? ==> (h.dir, h.addr) !in w.hashed))
  }

  /** Two memos at one directory never overlap. */
  ghost predicate ApartOk(w: World) {
    forall p, q | p in w.stamps && q in w.stamps && p.0 == q.0 && Overlaps(p.1, q.1) :: p == q
  }

  /** The walk has still to come by the memo at `p`. */
  predicate Coming(walk: Walk, p: Place) {
    p.0 in walk.todo || (p.0 == walk.at && p.1 in walk.rest)
  }

  /** The walk has left no hash it was to take. */
  ghost predicate WalkOk(w: World, k: nat)
    requires k < |w.walks|
  {
    && w.walks[k].began < w.clock
    && (w.walks[k].cause.Some? ==> w.walks[k].cause.value < |w.sources| && w.sources[w.walks[k].cause.value].listed)
    && forall p | p in w.stamps && p in w.hashed && Overlaps(p.1, w.walks[k].node) && w.hashed[p] < w.walks[k].began ::
         Coming(w.walks[k], p)
  }

  predicate Follows(walk: Walk, i: nat, f: Seg, after: nat) {
    walk.cause == Some(i) && walk.node == [f] && walk.began > after
  }

  /** Each field followed has a walk begun after the result was stored. */
  ghost predicate SourceOk(w: World, i: nat)
    requires i < |w.sources|
  {
    var s := w.sources[i];
    && (s.stored.Some? ==> s.stored.value < w.clock)
    && (s.listed && s.stored.None? ==> s.todo == s.fields)
    && (s.listed && s.stored.Some? ==>
          forall f | f in s.fields && f !in s.todo :: exists k :: 0 <= k < |w.walks| && Follows(w.walks[k], i, f, s.stored.value))
  }

  ghost predicate Inv(w: World) {
    && IndexOk(w) && HashesOk(w) && ApartOk(w)
    && (forall k {:trigger WalkOk(w, k)} | 0 <= k < |w.walks| :: WalkOk(w, k))
    && (forall i {:trigger SourceOk(w, i)} | 0 <= i < |w.sources| :: SourceOk(w, i))
  }

  // ---- Steps keep it ----------------------------------------------------

  /** What a step does to the stamps. */
  lemma StampsAfter(w: World, act: Action, p: Place)
    requires Enabled(w, act)
    ensures p in Step(w, act).stamps <==>
      (p in w.stamps && !(act.DropStamps? && p.0 == w.holder.value.dir && Drops(w.holder.value, p.1)))
      || (act.StoreStamp? && p == (w.holder.value.dir, w.holder.value.addr))
    ensures p in w.stamps && p !in Step(w, act).stamps ==> Going(Step(w, act), p)
  {
    if act.DropStamps? {
      var h := w.holder.value;
      var gone := set q | q in w.stamps && q.0 == h.dir && Drops(h, q.1) :: q.1;
      if p in w.stamps && p.0 == h.dir {
        assert Drops(h, p.1) ==> p.1 in gone;
        assert p.1 in gone ==> Drops(h, p.1);
      }
    }
  }

  lemma IndexKeeps(w: World, act: Action)
    requires IndexOk(w) && Enabled(w, act)
    ensures IndexOk(Step(w, act))
  {
    var v := Step(w, act);
    forall p | p in v.stamps
      ensures p.0 in v.index && p.1 != []
    {
      StampsAfter(w, act, p);
      assert p in w.stamps ==> HasMemo(w.stamps, p.0);
    }
    forall d | d in v.index
      ensures HasMemo(v.stamps, d) || (v.holder.Some? && v.holder.value.dir == d)
    {
      if HasMemo(w.stamps, d) {
        var p :| p in w.stamps && p.0 == d;
        StampsAfter(w, act, p);
      }
      if w.holder.Some? {
        StampsAfter(w, act, (w.holder.value.dir, w.holder.value.addr));
      }
    }
  }

  lemma ApartKeeps(w: World, act: Action)
    requires ApartOk(w) && HashesOk(w) && Enabled(w, act)
    ensures ApartOk(Step(w, act))
  {
    var v := Step(w, act);
    forall p, q | p in v.stamps && q in v.stamps && p.0 == q.0 && Overlaps(p.1, q.1)
      ensures p == q
    {
      StampsAfter(w, act, p);
      StampsAfter(w, act, q);
      if act.StoreStamp? {
        var h := w.holder.value;
        assert p in w.stamps && q == (h.dir, h.addr) ==> (h.dir, p.1) == p;
        assert q in w.stamps && p == (h.dir, h.addr) ==> (h.dir, q.1) == q;
      }
    }
  }

  /** What a step does to the hashes. */
  lemma HashAfter(w: World, act: Action, p: Place)
    requires Enabled(w, act)
    ensures var v := Step(w, act);
      && (p in v.hashed ==>
            if act.StoreKeys? && p == (w.holder.value.dir, w.holder.value.addr) then v.hashed[p] == w.clock
            else p in w.hashed && v.hashed[p] == w.hashed[p])
      && (act.DropKeys? && p.0 == w.holder.value.dir && p.1 in w.holder.value.phase.gone ==> p !in v.hashed)
      && (act.Unhash? && act.addr != [] && p == (w.walks[act.walk].at, act.addr) ==> p !in v.hashed)
  {
  }

  lemma HashesKeep(w: World, act: Action)
    requires IndexOk(w) && HashesOk(w) && Enabled(w, act)
    ensures HashesOk(Step(w, act))
  {
    var v := Step(w, act);
    forall p | p in v.hashed
      ensures v.hashed[p] < v.clock && (p in v.stamps || Going(v, p))
    {
      StampsAfter(w, act, p);
      HashAfter(w, act, p);
      HashHasMemo(w, act, p);
    }
    if v.holder.Some? && v.holder.value.Writing? && !v.holder.value.phase.Listed? {
      var h := v.holder.value;
      var place := (h.dir, h.addr);
      HashAfter(w, act, place);
      forall a | (h.dir, a) in v.stamps && !h.phase.Stamped?
        ensures !Overlaps(a, h.addr)
      {
        StampsAfter(w, act, (h.dir, a));
      }
    }
  }

  lemma HashHasMemo(w: World, act: Action, p: Place)
    requires IndexOk(w) && HashesOk(w) && Enabled(w, act) && p in Step(w, act).hashed
    ensures p in Step(w, act).stamps || Going(Step(w, act), p)
  {
    var v := Step(w, act);
    StampsAfter(w, act, p);
    HashAfter(w, act, p);
  }

  lemma NewWalk(w: World, act: Action, k: nat)
    requires IndexOk(w) && HashesOk(w) && Enabled(w, act) && |w.walks| <= k < |Step(w, act).walks|
    ensures WalkOk(Step(w, act), k)
  {
  }

  lemma WalkKeeps(w: World, act: Action, k: nat)
    requires Inv(w) && Enabled(w, act) && k < |Step(w, act).walks|
    ensures WalkOk(Step(w, act), k)
  {
    hide ApartOk, SourceOk;
    var v := Step(w, act);
    if k >= |w.walks| {
      NewWalk(w, act, k);
    } else {
      assert WalkOk(w, k);
      forall p | p in v.stamps && p in v.hashed && Overlaps(p.1, v.walks[k].node) && v.hashed[p] < v.walks[k].began
        ensures Coming(v.walks[k], p)
      {
        StampsAfter(w, act, p);
        HashAfter(w, act, p);
      }
    }
  }

  /** What a step does to a Source write, and to what it owes. */
  lemma SourceAfter(w: World, act: Action, i: nat)
    requires Enabled(w, act) && i < |w.sources|
    ensures var v := Step(w, act);
      && i < |v.sources| && v.clock == w.clock + 1
      && v.sources[i] == w.sources[i].(stored := if act == Store(i) then Some(w.clock) else w.sources[i].stored,
                                       todo := if act.Follow? && act.source == i then w.sources[i].todo - {act.field}
                                               else w.sources[i].todo)
      && (act.Follow? && act.source == i ==> |v.walks| == |w.walks| + 1 && v.walks[|w.walks|].cause == Some(i)
                                             && v.walks[|w.walks|].node == [act.field] && v.walks[|w.walks|].began == w.clock)
  {
  }

  lemma WalkStays(w: World, act: Action, k: nat)
    requires Enabled(w, act) && k < |w.walks|
    ensures var v := Step(w, act);
      k < |v.walks| && v.walks[k].(todo := {}, at := None, rest := {}) == w.walks[k].(todo := {}, at := None, rest := {})
  {
  }

  lemma NewSource(w: World, act: Action, i: nat)
    requires Enabled(w, act) && |w.sources| <= i < |Step(w, act).sources|
    ensures SourceOk(Step(w, act), i)
  {
  }

  lemma SourceKeeps(w: World, act: Action, i: nat)
    requires Inv(w) && Enabled(w, act) && i < |Step(w, act).sources|
    ensures SourceOk(Step(w, act), i)
  {
    hide Step, Enabled, IndexOk, HashesOk, ApartOk, WalkOk;
    var v := Step(w, act);
    if i >= |w.sources| {
      NewSource(w, act, i);
    } else {
      SourceAfter(w, act, i);
      StoredOnce(w, act, i);
      assert SourceOk(w, i);
      var s, t := w.sources[i], v.sources[i];
      if t.listed && t.stored.Some? {
        forall f | f in t.fields && f !in t.todo
          ensures exists k :: 0 <= k < |v.walks| && Follows(v.walks[k], i, f, t.stored.value)
        {
          if s.stored.Some? && f !in s.todo {
            var k :| 0 <= k < |w.walks| && Follows(w.walks[k], i, f, s.stored.value);
            WalkStays(w, act, k);
            assert Follows(v.walks[k], i, f, t.stored.value);
          } else {
            assert Follows(v.walks[|w.walks|], i, f, t.stored.value);
          }
        }
      }
    }
  }

  lemma StoredOnce(w: World, act: Action, i: nat)
    requires Enabled(w, act) && i < |w.sources|
    ensures act == Store(i) ==> w.sources[i].stored.None?
    ensures act.Follow? && act.source == i ==> w.sources[i].stored.Some? && act.field in w.sources[i].todo
  {
  }

  lemma StepKeeps(w: World, act: Action)
    requires Inv(w) && Enabled(w, act)
    ensures Inv(Step(w, act))
  {
    hide IndexOk, HashesOk, ApartOk, WalkOk, SourceOk, Step;
    var v := Step(w, act);
    IndexKeeps(w, act);
    HashesKeep(w, act);
    ApartKeeps(w, act);
    forall k | 0 <= k < |v.walks|
      ensures WalkOk(v, k)
    {
      WalkKeeps(w, act, k);
    }
    forall i | 0 <= i < |v.sources|
      ensures SourceOk(v, i)
    {
      SourceKeeps(w, act, i);
    }
  }

  lemma {:induction false} RunInv(ws: seq<World>, acts: seq<Action>, i: nat)
    requires Run(ws, acts) && i < |ws|
    ensures Inv(ws[i])
  {
    hide Inv, Step;
    if i == 0 {
      assert Inv(NO_MEMOS) by { NothingOk(); }
    } else {
      RunInv(ws, acts, i - 1);
      assert Enabled(ws[i - 1], acts[i - 1]) && ws[i - 1 + 1] == Step(ws[i - 1], acts[i - 1]);
      StepKeeps(ws[i - 1], acts[i - 1]);
    }
  }

  lemma NothingOk()
    ensures Inv(NO_MEMOS)
  {
  }

  // ---- What it is for ---------------------------------------------------

  /** At every moment of every interleaving each memo's directory is listed and no two
      memos of one directory overlap; and when nothing is being written or evicted the
      directories listed are exactly those that hold a memo. */
  lemma AlwaysListed(ws: seq<World>, acts: seq<Action>, i: nat, d: Dir)
    requires Run(ws, acts) && i < |ws|
    ensures ApartOk(ws[i]) && (HasMemo(ws[i].stamps, d) ==> d in ws[i].index)
    ensures ws[i].holder.None? ==> (HasMemo(ws[i].stamps, d) <==> d in ws[i].index)
  {
    RunInv(ws, acts, i);
  }

  predicate Finished(walk: Walk) {
    walk.todo == {} && walk.rest == {}
  }

  /** No hash that an invalidation was to take and that was there when it began is left
      when it has finished, or ever after: whatever was written and evicted meanwhile, a
      memo overlapping its node that has a hash had it stored since. */
  lemma NoOldHashIsLeft(ws: seq<World>, acts: seq<Action>, i: nat, k: nat, p: Place)
    requires Run(ws, acts) && i < |ws| && k < |ws[i].walks| && Finished(ws[i].walks[k])
    requires p in ws[i].stamps && p in ws[i].hashed && Overlaps(p.1, ws[i].walks[k].node)
    ensures ws[i].hashed[p] >= ws[i].walks[k].began
  {
    RunInv(ws, acts, i);
    assert WalkOk(ws[i], k);
  }

  /** A Source's result has been stored, and every invalidation it owes has finished. */
  ghost predicate Followed(w: World, i: nat)
    requires i < |w.sources|
  {
    && w.sources[i].stored.Some? && w.sources[i].todo == {}
    && forall k | 0 <= k < |w.walks| && w.walks[k].cause == Some(i) :: Finished(w.walks[k])
  }

  /** No memo made of the result's fields has a hash from before it was stored. */
  ghost predicate NoneOlder(w: World, i: nat)
    requires i < |w.sources| && w.sources[i].stored.Some?
  {
    forall p | p in w.stamps && p in w.hashed && p.1 != [] && p.1[0] in w.sources[i].fields ::
      w.hashed[p] > w.sources[i].stored.value
  }

  /** Where a memo's directory was listed when a result was about to be stored, no memo
      of its fields is left with a hash from before. */
  lemma ListedIsFollowed(ws: seq<World>, acts: seq<Action>, n: nat, i: nat)
    requires Run(ws, acts) && n < |ws| && i < |ws[n].sources| && ws[n].sources[i].listed && Followed(ws[n], i)
    ensures NoneOlder(ws[n], i)
  {
    var w := ws[n];
    RunInv(ws, acts, n);
    assert SourceOk(w, i);
    forall p | p in w.stamps && p in w.hashed && p.1 != [] && p.1[0] in w.sources[i].fields
      ensures w.hashed[p] > w.sources[i].stored.value
    {
      var k :| 0 <= k < |w.walks| && Follows(w.walks[k], i, p.1[0], w.sources[i].stored.value);
      assert Overlaps(p.1, w.walks[k].node);
      NoOldHashIsLeft(ws, acts, n, k, p);
    }
  }

  // ---- When none was listed ---------------------------------------------

  lemma OneMore(ws: seq<World>, acts: seq<Action>, act: Action) returns (us: seq<World>, bs: seq<Action>)
    requires Run(ws, acts) && Enabled(ws[|acts|], act)
    ensures Run(us, bs) && Onward(ws, acts, us, bs) && us[|bs|] == Step(ws[|acts|], act)
    ensures |bs| == |acts| + 1 && bs[|acts|] == act
  {
    hide Step, Enabled;
    us, bs := ws + [Step(ws[|acts|], act)], acts + [act];
    forall i | 0 <= i < |bs|
      ensures Enabled(us[i], bs[i]) && us[i + 1] == Step(us[i], bs[i])
    {
      assert i < |acts| ==> us[i] == ws[i] && us[i + 1] == ws[i + 1] && bs[i] == acts[i];
    }
  }

  /** One run goes on from another. */
  ghost predicate Onward(ws: seq<World>, acts: seq<Action>, us: seq<World>, bs: seq<Action>) {
    ws <= us && acts <= bs
  }

  lemma {:induction false} SourceStays(ws: seq<World>, acts: seq<Action>, n: nat, m: nat, i: nat)
    requires Run(ws, acts) && n <= m < |ws| && i < |ws[n].sources|
    ensures i < |ws[m].sources| && ws[m].sources[i].listed == ws[n].sources[i].listed
    decreases m
  {
    if n < m {
      SourceStays(ws, acts, n, m - 1, i);
      assert Enabled(ws[m - 1], acts[m - 1]) && ws[m - 1 + 1] == Step(ws[m - 1], acts[m - 1]);
    }
  }

  lemma UnlistedHasNoWalk(w: World, i: nat)
    requires Inv(w) && i < |w.sources| && !w.sources[i].listed
    ensures forall k | 0 <= k < |w.walks| :: w.walks[k].cause != Some(i)
  {
    forall k | 0 <= k < |w.walks|
      ensures w.walks[k].cause != Some(i)
    {
      assert WalkOk(w, k);
    }
  }

  /** A memo written after the look, and before the result is stored. */
  lemma MissedMemo(ws: seq<World>, acts: seq<Action>, f: Seg, i: nat) returns (us: seq<World>, bs: seq<Action>)
    requires Run(ws, acts) && ws[|acts|].holder.None? && i < |ws[|acts|].sources|
    requires var s := ws[|acts|].sources[i]; !s.listed && s.stored.None? && s.todo == {} && f in s.fields
    ensures Run(us, bs) && Onward(ws, acts, us, bs)
    ensures |us[|bs|].sources| == |ws[|acts|].sources| && Followed(us[|bs|], i) && !NoneOlder(us[|bs|], i)
  {
    var w := ws[|acts|];
    us, bs := OneMore(ws, acts, BeginWrite(None, [f]));
    us, bs := OneMore(us, bs, DropStamps);
    us, bs := OneMore(us, bs, DropKeys);
    us, bs := OneMore(us, bs, StoreStamp);
    us, bs := OneMore(us, bs, StoreKeys);
    var u := us[|bs|];
    var p: Place := (None, [f]);
    assert p in u.stamps && p in u.hashed && u.hashed[p] < u.clock;
    assert u.sources == w.sources && u.walks == w.walks;
    us, bs := OneMore(us, bs, Store(i));
    var v := us[|bs|];
    RunInv(us, bs, |bs|);
    assert v.sources[i] == w.sources[i].(stored := Some(u.clock));
    UnlistedHasNoWalk(v, i);
    assert v.hashed[p] <= v.sources[i].stored.value;
  }

  /** On every way on from here, once result `i` is followed no older hash is left. */
  ghost predicate AlwaysFollowed(ws: seq<World>, acts: seq<Action>, i: nat) {
    forall us: seq<World>, bs: seq<Action> | Run(us, bs) && Onward(ws, acts, us, bs) && i < |us[|bs|].sources| && Followed(us[|bs|], i) ::
      NoneOlder(us[|bs|], i)
  }

  /** A result of some field is sure to leave no older hash of a memo of its fields, on
      every way on from where its storing looked for listed directories, if and only if
      it found one. It looks before it stores: the provider's first memo may be written
      in between, and is then not followed. */
  lemma FollowedExactly(ws: seq<World>, acts: seq<Action>)
    requires Run(ws, acts) && acts != [] && acts[|acts| - 1].Look? && acts[|acts| - 1].fields != {}
    ensures var w := ws[|acts| - 1];
      AlwaysFollowed(ws, acts, |w.sources|) <==> w.index != {}
  {
    var w, v, act := ws[|acts| - 1], ws[|acts|], acts[|acts| - 1];
    var i := |w.sources|;
    assert Enabled(w, act) && ws[|acts| - 1 + 1] == Step(w, act);
    assert v.sources[i] == Source(act.fields, w.index != {}, None, if w.index != {} then act.fields else {});
    if w.index != {} {
      forall us: seq<World>, bs: seq<Action> | Run(us, bs) && Onward(ws, acts, us, bs) && i < |us[|bs|].sources| && Followed(us[|bs|], i)
        ensures NoneOlder(us[|bs|], i)
      {
        assert us[|acts|] == v;
        SourceStays(us, bs, |acts|, |bs|, i);
        ListedIsFollowed(us, bs, |bs|, i);
      }
    } else {
      var f :| f in act.fields;
      var us, bs := MissedMemo(ws, acts, f, i);
      assert Onward(ws, acts, us, bs);
    }
  }

  /** So it happens: the first memo of a provider, written while a result of its field is
      being stored, has its hash when the storing is done. */
  lemma FirstMemoIsMissed(f: Seg) returns (ws: seq<World>, acts: seq<Action>)
    ensures Run(ws, acts) && |ws[|acts|].sources| == 1 && Followed(ws[|acts|], 0) && !NoneOlder(ws[|acts|], 0)
  {
    ws, acts := [NO_MEMOS], [];
    ws, acts := OneMore(ws, acts, Look({f}));
    ws, acts := MissedMemo(ws, acts, f, 0);
  }
}
