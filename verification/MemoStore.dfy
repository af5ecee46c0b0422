/** One provider's memos as src/cache.rs stores them: an entry per directory that
    holds one, the keys beside it, and the index of those directories that an
    invalidation walks. */
module MemoStore {
  import opened Prelude
  import opened Tree
  import opened Puts
  import opened TreeCuts
  import opened Memos

  datatype Entry = Entry(stamps: map<Addr, Stamp>, values: Fields)

  /** The namespaces a write may name: the provider's own data or its `:template`,
      which memos are made of, or another facet. */
  datatype Facet = Base | Template | Other

  /** `remove_path`, of each address. */
  method CutAll(f: Fields, gone: set<Addr>) returns (g: Fields)
    requires forall a | a in gone :: a != []
    ensures g == CutTree(f, gone)
  {
    hide IsCut, CutTree, Remove;
    g := f;
    var todo := gone;
    assert gone - todo == {};
    NoneCut(f);
    while todo != {}
      invariant todo <= gone && IsCut(f, gone - todo, g)
      decreases |todo|
    {
      var a :| a in todo;
      CutOne(f, gone - todo, g, a);
      assert gone - todo + {a} == gone - (todo - {a});
      g := Remove(g, a);
      todo := todo - {a};
    }
    assert gone - todo == gone;
    CutIsOne(f, gone, g);
  }

  lemma NoneCut(f: Fields)
    ensures IsCut(f, {}, f)
  {
  }

  class MemoStore {
    /** `<p>:memo`, `<p>:cache` and `memo_paths`. */
    var memos: map<Dir, Entry>
    var keys: map<Dir, Fields>
    var index: set<Dir>

    ghost function At(dir: Dir): Shelf
      reads this
    {
      ShelfOf(memos, keys, dir)
    }

    /** Each directory's memos are sound, and the index lists exactly the directories
        holding one. */
    ghost predicate Valid()
      reads this
    {
      Sound(memos, keys, index)
    }

    constructor ()
      ensures Valid() && forall dir :: At(dir) == BARE
    {
      memos, keys, index := map[], map[], {};
    }

    /** `drop_memos`: an entry left holding nothing goes. */
    method DropMemos(dir: Dir, gone: set<Addr>)
      requires ShelfOk(At(dir)) && gone <= At(dir).stamps.Keys
      modifies this`memos, this`keys
      ensures At(dir) == Dropped(old(At(dir)), gone)
      ensures OthersStand(old(memos), old(keys), memos, keys, dir)
      ensures memos.Keys - {dir} == old(memos).Keys - {dir} && (dir in memos <==> At(dir).stamps != map[])
    {
      hide OthersStand, ShelfOk, Overlaps, CutTree, Covered;
      ghost var was, m0, k0 := At(dir), memos, keys;
      StampsApart(was);
      DropKeeps(was, gone);
      NoStampsNothing(Dropped(was, gone));
      if dir in memos {
        var values := CutAll(memos[dir].values, gone);
        var left := Entry(memos[dir].stamps - gone, values);
        memos := if left == Entry(map[], map[]) then memos - {dir} else memos[dir := left];
      } else {
        CutNothing(gone);
      }
      if gone == {} {
        NoneGone(was);
        OthersUntouched(m0, k0, memos, keys, dir);
        return;
      }
      if dir in keys {
        var left := CutAll(keys[dir], gone);
        keys := if left == map[] then keys - {dir} else keys[dir := left];
      } else {
        CutNothing(gone);
      }
      OthersUntouched(m0, k0, memos, keys, dir);
    }

    /** `write_memo`: whatever memo overlaps the address goes first. */
    method WriteMemo(dir: Dir, a: Addr, value: Option<Value>, stored: Fields, stamp: Stamp)
      requires Valid() && a != []
      modifies this
      ensures Valid()
      ensures At(dir) == Written(old(At(dir)), a, value, stored, stamp)
      ensures OthersStand(old(memos), old(keys), memos, keys, dir)
    {
      hide ShelfOk, Dropped, Overlapping, Sound, OthersStand;
      ghost var was, m0, k0, i0 := At(dir), memos, keys, index;
      SoundAt(memos, keys, index, dir);
      WriteKeeps(was, a, value, stored, stamp);
      index := index + {dir};
      var over := if dir in memos then set d | d in memos[dir].stamps && Overlaps(d, a) else {};
      OverlappingIs(was, a, over);
      DropMemos(dir, over);
      ghost var m1, k1 := memos, keys;
      Lay(dir, a, value, stored, stamp);
      assert At(dir) == Written(was, a, value, stored, stamp);
      OthersStandOn(m0, k0, m1, k1, memos, keys, dir);
      SoundAfter(m0, k0, i0, memos, keys, index, dir);
    }

    /** The memo's stamp, value and keys, each in its entry. */
    method Lay(dir: Dir, a: Addr, value: Option<Value>, stored: Fields, stamp: Stamp)
      modifies this`memos, this`keys
      ensures At(dir) == old(Shelf(At(dir).stamps[a := stamp],
                                   if value.Some? then Insert(At(dir).values, a, value.value) else At(dir).values,
                                   Insert(At(dir).keys, a, Object(stored))))
      ensures dir in memos && memos[dir].stamps == At(dir).stamps && a in memos[dir].stamps
      ensures OthersStand(old(memos), old(keys), memos, keys, dir)
    {
      hide Insert;
      var entry := if dir in memos then memos[dir] else Entry(map[], map[]);
      memos := memos[dir := Entry(entry.stamps[a := stamp],
                                  if value.Some? then Insert(entry.values, a, value.value) else entry.values)];
      keys := keys[dir := Insert(if dir in keys then keys[dir] else map[], a, Object(stored))];
    }

    /** `evict_memo`: whether there was one. */
    method EvictMemo(dir: Dir, a: Addr) returns (evicted: bool)
      requires Valid()
      modifies this
      ensures Valid()
      ensures At(dir) == Evicted(old(At(dir)), a) && (evicted <==> a in old(At(dir)).stamps)
      ensures OthersStand(old(memos), old(keys), memos, keys, dir)
    {
      hide ShelfOk, Dropped, Sound;
      ghost var was, m0, k0, i0 := At(dir), memos, keys, index;
      SoundAt(memos, keys, index, dir);
      EvictedIs(was, a, a);
      evicted := dir in memos && a in memos[dir].stamps;
      DropMemos(dir, if evicted then {a} else {});
      if dir !in memos {
        index := index - {dir};
      }
      assert At(dir).stamps != map[] ==> was.stamps != map[] by { EvictedIs(was, a, a); EvictedStamps(was, a); }
      SoundAfter(m0, k0, i0, memos, keys, index, dir);
    }

    /** `drop_memo_hash`: whether one went. */
    method DropHash(dir: Dir, a: Addr) returns (dropped: bool)
      modifies this`keys
      ensures At(dir) == Unhashed(old(At(dir)), a) && (dropped <==> HasHash(old(At(dir)), a))
      ensures OthersStand(old(memos), old(keys), memos, keys, dir)
    {
      dropped := false;
      if dir in keys {
        match Lookup(keys[dir], a)
        case Some(Object(stored)) =>
          if HASH in stored {
            keys := keys[dir := Insert(keys[dir], a, Object(stored - {HASH}))];
            dropped := true;
          }
        case _ =>
      }
    }

    /** `drop_memo_hashes_under`: the memos overlapping `node`, at every directory the
        index lists, lose their hash; whether there is any. */
    method DropHashesUnder(node: Addr) returns (found: bool)
      requires Valid()
      modifies this`keys
      ensures Valid()
      ensures Invalidated(memos, old(keys), keys, index, node)
      ensures found <==> exists dir :: dir in index && Overlapping(old(ShelfOf(memos, keys, dir)), node) != {}
    {
      hide ShelfOk, HashesGone, Overlapping, Sound;
      found := false;
      var todo := index;
      ghost var was := keys;
      assert index - todo == {};
      NoneInvalidated(memos, keys, node);
      while todo != {}
        invariant todo <= index
        invariant Sound(memos, keys, index) && Invalidated(memos, was, keys, index - todo, node)
        invariant found <==> exists dir :: dir in index - todo && Overlapping(ShelfOf(memos, was, dir), node) != {}
        decreases |todo|
      {
        var dir :| dir in todo;
        SoundAt(memos, keys, index, dir);
        NotYet(memos, was, keys, index - todo, node, dir);
        ghost var before := keys;
        var some := DropHashesAt(dir, node);
        OneInvalidated(memos, was, before, keys, index - todo, node, dir);
        SoundAfter(memos, before, index, memos, keys, index, dir);
        assert index - todo + {dir} == index - (todo - {dir});
        found := found || some;
        todo := todo - {dir};
      }
      assert index - todo == index;
    }

    /** One directory of the walk. */
    method DropHashesAt(dir: Dir, node: Addr) returns (some: bool)
      requires ShelfOk(At(dir)) && dir in memos
      modifies this`keys
      ensures ShelfOk(At(dir)) && HashesGone(old(At(dir)), Overlapping(old(At(dir)), node), At(dir))
      ensures OthersStand(old(memos), old(keys), memos, keys, dir)
      ensures some <==> Overlapping(old(At(dir)), node) != {}
    {
      hide ShelfOk, HashesGone, Unhashed;
      var over := set d | d in memos[dir].stamps && Overlaps(d, node);
      some := over != {};
      ghost var was := At(dir);
      var todo := over;
      assert over == Overlapping(was, node) && over - todo == {};
      NoHashesGone(was);
      while todo != {}
        invariant todo <= over
        invariant ShelfOk(At(dir)) && HashesGone(was, over - todo, At(dir)) && At(dir).stamps == was.stamps
        invariant OthersStand(old(memos), old(keys), memos, keys, dir)
        decreases |todo|
      {
        var a :| a in todo;
        HashesGoneOne(was, over - todo, At(dir), a);
        assert over - todo + {a} == over - (todo - {a});
        var dropped := DropHash(dir, a);
        todo := todo - {a};
      }
      assert over - todo == over;
    }

    /** `memo_record`: up the chain, the nearest directory holding a memo at the
        address decides, whether or not it has a value. */
    method MemoRecord(chain: seq<Dir>, a: Addr) returns (found: Option<(Dir, Memo)>)
      requires Valid()
      ensures found.None? <==> forall i | 0 <= i < |chain| :: a !in At(chain[i]).stamps
      ensures found.Some? ==>
        exists i ::
          && 0 <= i < |chain| && a in At(chain[i]).stamps
          && found.value == (chain[i], MemoAt(At(chain[i]), a))
          && forall j | 0 <= j < i :: a !in At(chain[j]).stamps
    {
      if index == {} {
        return None;
      }
      for i := 0 to |chain|
        invariant forall j | 0 <= j < i :: a !in At(chain[j]).stamps
      {
        var dir := chain[i];
        if dir in memos && a in memos[dir].stamps {
          var stored := if dir in keys then Lookup(keys[dir], a) else None;
          assert MemoAt(At(dir), a) == Memo(Some(memos[dir].stamps[a]), Lookup(memos[dir].values, a), stored);
          return Some((dir, Memo(Some(memos[dir].stamps[a]), Lookup(memos[dir].values, a), stored)));
        }
      }
      return None;
    }

    /** `memos_follow_write`: a write to the provider's own data, or to its template. */
    method FollowWrite(facet: Facet, node: Addr)
      requires Valid()
      modifies this`keys
      ensures Valid()
      ensures facet.Other? ==> keys == old(keys)
      ensures !facet.Other? ==> Invalidated(memos, old(keys), keys, index, node)
    {
      if !facet.Other? {
        var found := DropHashesUnder(node);
      }
    }

    /** `put_source`, for the memos: each field of the new result is written. */
    method FollowSource(fields: set<Seg>)
      requires Valid()
      modifies this`keys
      ensures Valid()
      ensures AllInvalidated(memos, old(keys), keys, index, fields)
    {
      hide HashesGone, Sound, Invalidated, AllInvalidated;
      var todo := fields;
      ghost var was := keys;
      assert fields - todo == {};
      NoneAllInvalidated(memos, keys, index);
      while todo != {}
        invariant todo <= fields && Valid()
        invariant AllInvalidated(memos, was, keys, index, fields - todo)
        decreases |todo|
      {
        var k :| k in todo;
        ghost var before := keys;
        var found := DropHashesUnder([k]);
        MoreInvalidated(memos, was, before, keys, index, fields - todo, k);
        assert fields - todo + {k} == fields - (todo - {k});
        todo := todo - {k};
      }
      assert fields - todo == fields;
    }
  }


  // ---- The maps as values -----------------------------------------------

  function ShelfOf(memos: map<Dir, Entry>, keys: map<Dir, Fields>, dir: Dir): Shelf {
    Shelf(if dir in memos then memos[dir].stamps else map[],
          if dir in memos then memos[dir].values else map[],
          if dir in keys then keys[dir] else map[])
  }

  ghost predicate Sound(memos: map<Dir, Entry>, keys: map<Dir, Fields>, index: set<Dir>) {
    && (forall dir {:trigger ShelfOf(memos, keys, dir)} :: ShelfOk(ShelfOf(memos, keys, dir)))
    && (forall dir {:trigger dir in memos} :: dir in memos ==> memos[dir].stamps != map[])
    && index == memos.Keys
  }

  lemma NoStampsNothing(s: Shelf)
    requires ShelfOk(s)
    ensures s.stamps == map[] ==> s == BARE
  {
    if s.stamps == map[] {
      forall b
        ensures Leaf(s.values, b).None? && Leaf(s.keys, b).None?
      {
        assert !Covered(s.stamps.Keys, b);
      }
      NoLeavesNothing(s.values);
      NoLeavesNothing(s.keys);
    }
  }

  lemma CutNothing(gone: set<Addr>)
    ensures CutTree(map[], gone) == map[]
  {
    CutTreeIs(map[], gone);
    forall b
      ensures Leaf(CutTree(map[], gone), b).None?
    {
      assert Leaf(map[], b).None?;
    }
    NoLeavesNothing(CutTree(map[], gone));
  }

  lemma NoneGone(s: Shelf)
    ensures Dropped(s, {}) == s
  {
  }

  lemma EvictedStamps(s: Shelf, a: Addr)
    ensures Evicted(s, a).stamps == s.stamps - {a}
  {
  }

  lemma OverlappingIs(s: Shelf, a: Addr, over: set<Addr>)
    requires over == set d | d in s.stamps && Overlaps(d, a)
    ensures over == Overlapping(s, a) && over <= s.stamps.Keys
  {
  }

  lemma NoHashesGone(s: Shelf)
    ensures HashesGone(s, {}, s)
  {
  }

  /** Every directory but `dir` holds what it held. */
  ghost predicate OthersStand(m0: map<Dir, Entry>, k0: map<Dir, Fields>, m1: map<Dir, Entry>, k1: map<Dir, Fields>, dir: Dir) {
    && m1.Keys - {dir} == m0.Keys - {dir}
    && forall d {:trigger ShelfOf(m1, k1, d)} | d != dir :: ShelfOf(m1, k1, d) == ShelfOf(m0, k0, d)
  }

  lemma OthersUntouched(m0: map<Dir, Entry>, k0: map<Dir, Fields>, m1: map<Dir, Entry>, k1: map<Dir, Fields>, dir: Dir)
    requires m1 - {dir} == m0 - {dir} && k1 - {dir} == k0 - {dir}
    ensures OthersStand(m0, k0, m1, k1, dir)
  {
    forall d | d != dir
      ensures ShelfOf(m1, k1, d) == ShelfOf(m0, k0, d)
      ensures d in m1.Keys <==> d in m0.Keys
    {
      assert d in m1 <==> d in m1 - {dir};
      assert d in k1 <==> d in k1 - {dir};
      assert d in m0 <==> d in m0 - {dir};
      assert d in k0 <==> d in k0 - {dir};
      assert d in m1 ==> m1[d] == (m1 - {dir})[d] == (m0 - {dir})[d];
      assert d in k1 ==> k1[d] == (k1 - {dir})[d] == (k0 - {dir})[d];
    }
  }

  lemma OthersStandOn(m0: map<Dir, Entry>, k0: map<Dir, Fields>, m1: map<Dir, Entry>, k1: map<Dir, Fields>,
                      m2: map<Dir, Entry>, k2: map<Dir, Fields>, dir: Dir)
    requires OthersStand(m0, k0, m1, k1, dir) && OthersStand(m1, k1, m2, k2, dir)
    ensures OthersStand(m0, k0, m2, k2, dir)
  {
  }

  lemma StampsApart(s: Shelf)
    requires ShelfOk(s)
    ensures forall a | a in s.stamps :: a != []
  {
  }

  lemma SoundAt(memos: map<Dir, Entry>, keys: map<Dir, Fields>, index: set<Dir>, dir: Dir)
    requires Sound(memos, keys, index)
    ensures ShelfOk(ShelfOf(memos, keys, dir)) && index == memos.Keys
    ensures dir in memos <==> ShelfOf(memos, keys, dir).stamps != map[]
  {
  }

  /** What one directory's operation must see to. */
  lemma SoundAfter(m0: map<Dir, Entry>, k0: map<Dir, Fields>, i0: set<Dir>,
                   m1: map<Dir, Entry>, k1: map<Dir, Fields>, i1: set<Dir>, dir: Dir)
    requires Sound(m0, k0, i0) && OthersStand(m0, k0, m1, k1, dir)
    requires ShelfOk(ShelfOf(m1, k1, dir)) && (dir in m1 ==> m1[dir].stamps != map[])
    requires i1 == if dir in m1 then i0 + {dir} else i0 - {dir}
    ensures Sound(m1, k1, i1)
  {
    forall d
      ensures ShelfOk(ShelfOf(m1, k1, d))
    {
      if d != dir {
        assert ShelfOf(m1, k1, d) == ShelfOf(m0, k0, d);
      }
    }
    forall d | d in m1
      ensures m1[d].stamps != map[]
    {
      if d != dir {
        assert d in m1.Keys - {dir};
        assert ShelfOf(m1, k1, d) == ShelfOf(m0, k0, d);
      }
    }
    forall d
      ensures d in i1 <==> d in m1.Keys
    {
      if d != dir {
        assert d in m1.Keys - {dir} <==> d in m0.Keys - {dir};
      }
    }
  }

  // ---- What an invalidation leaves --------------------------------------

  /** The memos an invalidation at `node` has hit, of a directory listed in `done`. */
  function Hit(memos: map<Dir, Entry>, keys: map<Dir, Fields>, dir: Dir, done: set<Dir>, node: Addr): set<Addr> {
    if dir in done then Overlapping(ShelfOf(memos, keys, dir), node) else {}
  }

  /** At each directory of `done` the memos overlapping `node` have lost their hash,
      and nothing else has moved anywhere. */
  ghost predicate Invalidated(memos: map<Dir, Entry>, was: map<Dir, Fields>, keys: map<Dir, Fields>, done: set<Dir>, node: Addr) {
    forall dir {:trigger ShelfOf(memos, keys, dir)} ::
      HashesGone(ShelfOf(memos, was, dir), Hit(memos, was, dir, done, node), ShelfOf(memos, keys, dir))
      && (dir !in done ==> ShelfOf(memos, keys, dir) == ShelfOf(memos, was, dir))
  }

  lemma NoneInvalidated(memos: map<Dir, Entry>, keys: map<Dir, Fields>, node: Addr)
    ensures Invalidated(memos, keys, keys, {}, node)
  {
  }

  lemma NotYet(memos: map<Dir, Entry>, was: map<Dir, Fields>, keys: map<Dir, Fields>, done: set<Dir>, node: Addr, dir: Dir)
    requires Invalidated(memos, was, keys, done, node) && dir !in done
    ensures ShelfOf(memos, keys, dir) == ShelfOf(memos, was, dir)
  {
  }

  lemma OneInvalidated(memos: map<Dir, Entry>, was: map<Dir, Fields>, before: map<Dir, Fields>, keys: map<Dir, Fields>,
                       done: set<Dir>, node: Addr, dir: Dir)
    requires Invalidated(memos, was, before, done, node) && dir !in done
    requires OthersStand(memos, before, memos, keys, dir)
    requires HashesGone(ShelfOf(memos, before, dir), Overlapping(ShelfOf(memos, before, dir), node), ShelfOf(memos, keys, dir))
    ensures Invalidated(memos, was, keys, done + {dir}, node)
  {
    hide HashesGone, Overlapping;
    NotYet(memos, was, before, done, node, dir);
    forall d
      ensures HashesGone(ShelfOf(memos, was, d), Hit(memos, was, d, done + {dir}, node), ShelfOf(memos, keys, d))
      ensures d !in done + {dir} ==> ShelfOf(memos, keys, d) == ShelfOf(memos, was, d)
    {
      if d != dir {
        assert ShelfOf(memos, keys, d) == ShelfOf(memos, before, d);
      }
    }
  }

  /** After an invalidation at `node` no memo overlapping it has a hash, at any
      directory; every other memo has its hash if it had one; and the rest of every
      memo stands. */
  lemma InvalidatedLeaves(memos: map<Dir, Entry>, was: map<Dir, Fields>, keys: map<Dir, Fields>, index: set<Dir>,
                          node: Addr, dir: Dir, a: Addr)
    requires Sound(memos, was, index) && Invalidated(memos, was, keys, index, node)
    requires a in ShelfOf(memos, was, dir).stamps
    ensures var s, t := ShelfOf(memos, was, dir), ShelfOf(memos, keys, dir);
      && (HasHash(t, a) <==> HasHash(s, a) && !Overlaps(a, node))
      && MemoAt(t, a).stamp == MemoAt(s, a).stamp && MemoAt(t, a).value == MemoAt(s, a).value
      && WithoutHash(MemoAt(t, a)) == WithoutHash(MemoAt(s, a))
  {
    var s, t := ShelfOf(memos, was, dir), ShelfOf(memos, keys, dir);
    assert dir in index;
    HashLeft(s, Overlapping(s, node), t, a);
    assert MemoAt(t, a) == if a in Overlapping(s, node) then WithoutHash(MemoAt(s, a)) else MemoAt(s, a);
    TwiceIsOnce(MemoAt(s, a));
  }

  /** A memo has its hash if it had one and none of `fields` is what it is made of;
      the rest of it stands. */
  predicate StandsBut(s: Shelf, t: Shelf, fields: set<Seg>, a: Addr) {
    && (HasHash(t, a) <==> HasHash(s, a) && (a == [] || a[0] !in fields))
    && MemoAt(t, a).stamp == MemoAt(s, a).stamp && MemoAt(t, a).value == MemoAt(s, a).value
    && WithoutHash(MemoAt(t, a)) == WithoutHash(MemoAt(s, a))
  }

  /** Every memo at every directory has followed a result of the fields `fields`. A
      memo of a field the result no longer has is not among those that lose a hash. */
  ghost predicate AllInvalidated(memos: map<Dir, Entry>, was: map<Dir, Fields>, keys: map<Dir, Fields>, index: set<Dir>, fields: set<Seg>) {
    forall dir, a {:trigger MemoAt(ShelfOf(memos, keys, dir), a)} | a in ShelfOf(memos, was, dir).stamps ::
      StandsBut(ShelfOf(memos, was, dir), ShelfOf(memos, keys, dir), fields, a)
  }

  lemma NoneAllInvalidated(memos: map<Dir, Entry>, keys: map<Dir, Fields>, index: set<Dir>)
    ensures AllInvalidated(memos, keys, keys, index, {})
  {
    forall dir, a | a in ShelfOf(memos, keys, dir).stamps
      ensures StandsBut(ShelfOf(memos, keys, dir), ShelfOf(memos, keys, dir), {}, a)
    {
    }
  }

  lemma MoreInvalidated(memos: map<Dir, Entry>, was: map<Dir, Fields>, before: map<Dir, Fields>, keys: map<Dir, Fields>,
                        index: set<Dir>, fields: set<Seg>, k: Seg)
    requires Sound(memos, before, index) && AllInvalidated(memos, was, before, index, fields)
    requires Invalidated(memos, before, keys, index, [k])
    ensures AllInvalidated(memos, was, keys, index, fields + {k})
  {
    forall dir, a | a in ShelfOf(memos, was, dir).stamps
      ensures StandsBut(ShelfOf(memos, was, dir), ShelfOf(memos, keys, dir), fields + {k}, a)
    {
      InvalidatedLeaves(memos, before, keys, index, [k], dir, a);
      assert MemoAt(ShelfOf(memos, before, dir), a).stamp.Some?;
      SoundAt(memos, before, index, dir);
      assert Overlaps(a, [k]) <==> a[0] == k;
    }
  }

  /** The memo at `a` is made of one of `fields`. */
  predicate MadeOf(a: Addr, fields: set<Seg>) {
    a != [] && a[0] in fields
  }

  /** After a new result, no memo made of a field of the old result or the new has a
      hash, if and only if none was made of a field that is gone and had one. */
  lemma SourceFollowedExactly(memos: map<Dir, Entry>, was: map<Dir, Fields>, keys: map<Dir, Fields>, index: set<Dir>,
                              before: set<Seg>, fields: set<Seg>)
    requires Sound(memos, was, index) && AllInvalidated(memos, was, keys, index, fields)
    ensures (forall dir, a {:trigger HasHash(ShelfOf(memos, keys, dir), a)} |
               a in ShelfOf(memos, was, dir).stamps && MadeOf(a, before + fields) :: !HasHash(ShelfOf(memos, keys, dir), a))
      <==> (forall dir, a {:trigger HasHash(ShelfOf(memos, was, dir), a)} |
              a in ShelfOf(memos, was, dir).stamps && MadeOf(a, before - fields) :: !HasHash(ShelfOf(memos, was, dir), a))
  {
    forall dir, a | a in ShelfOf(memos, was, dir).stamps && MadeOf(a, before + fields)
      ensures HasHash(ShelfOf(memos, keys, dir), a) <==> HasHash(ShelfOf(memos, was, dir), a) && MadeOf(a, before - fields)
    {
      var memo := MemoAt(ShelfOf(memos, keys, dir), a);
      assert StandsBut(ShelfOf(memos, was, dir), ShelfOf(memos, keys, dir), fields, a);
    }
  }

  /** A result without the field `f` leaves the memo made of it its hash. */
  lemma VanishedFieldKeepsHash(s: Stamp) returns (memos: map<Dir, Entry>, keys: map<Dir, Fields>)
    ensures Sound(memos, keys, {None}) && AllInvalidated(memos, keys, keys, {None}, {})
    ensures MadeOf(["f"], {"f"}) && ["f"] in ShelfOf(memos, keys, None).stamps && HasHash(ShelfOf(memos, keys, None), ["f"])
  {
    var stored := Object(map[HASH := Scalar("h")]);
    var held: Fields := map["f" := stored];
    memos, keys := map[None := Entry(map[["f"] := s], map[])], map[None := held];
    NoneAllInvalidated(memos, keys, {None});
    assert ["f"] in memos[None].stamps;
    forall dir
      ensures ShelfOk(ShelfOf(memos, keys, dir))
    {
      OneMemoOk(s, held);
      BareOk();
    }
  }

  lemma OneMemoOk(s: Stamp, held: Fields)
    requires held == map["f" := Object(map[HASH := Scalar("h")])]
    ensures ShelfOk(Shelf(map[["f"] := s], map[], held))
  {
    var shelf := Shelf(map[["f"] := s], map[], held);
    forall b | Leaf(held, b).Some?
      ensures Covered(shelf.stamps.Keys, b)
    {
      assert b[0] == "f" && ["f"] <= b;
      CoveredBy(shelf.stamps.Keys, ["f"], b);
    }
  }

  lemma BareOk()
    ensures ShelfOk(BARE)
  {
  }
}
