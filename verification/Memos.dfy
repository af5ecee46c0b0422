/** The memos of one provider's template leaves (src/cache.rs): at each directory a
    stamp per memo, its value when it has one, and its stored keys, the hash among
    them, which a write to what the memo was made of takes away. */
module Memos {
  import opened Prelude
  import opened Tree
  import opened Puts
  import opened TreeCuts

  type Dir = Option<string>

  const HASH := "hash"

  /** The memos at one directory: the stamps and values of `<p>:memo`, and the keys of
      `<p>:cache`, each memo's an object at its address. */
  datatype Shelf = Shelf(stamps: map<Addr, Stamp>, values: Fields, keys: Fields)

  const BARE := Shelf(map[], map[], map[])

  // ---- One directory ----------------------------------------------------

  /** What stands at one address: a memo has a stamp and keys, and may have a value. */
  datatype Memo = Memo(stamp: Option<Stamp>, value: Option<Value>, keys: Option<Value>)

  function MemoAt(s: Shelf, a: Addr): Memo {
    Memo(if a in s.stamps then Some(s.stamps[a]) else None, Lookup(s.values, a), Lookup(s.keys, a))
  }

  predicate HasHash(s: Shelf, a: Addr) {
    Lookup(s.keys, a).Some? && Lookup(s.keys, a).value.Object? && HASH in Lookup(s.keys, a).value.fields
  }

  /** The addresses of the memos never overlap, each memo has its keys, and nothing
      stands anywhere else. */
  ghost predicate ShelfOk(s: Shelf) {
    && (forall a | a in s.stamps :: a != [])
    && (forall a, b | a in s.stamps && b in s.stamps && Overlaps(a, b) :: a == b)
    && (forall a | a in s.stamps :: Lookup(s.keys, a).Some? && Lookup(s.keys, a).value.Object?)
    && (forall b {:trigger Leaf(s.values, b)} | Leaf(s.values, b).Some? :: Covered(s.stamps.Keys, b))
    && (forall b {:trigger Leaf(s.keys, b)} | Leaf(s.keys, b).Some? :: Covered(s.stamps.Keys, b))
  }

  /** `drop_memos`, of the addresses `gone`. */
  ghost function Dropped(s: Shelf, gone: set<Addr>): Shelf {
    Shelf(s.stamps - gone, CutTree(s.values, gone), CutTree(s.keys, gone))
  }

  function Overlapping(s: Shelf, a: Addr): set<Addr> {
    set d | d in s.stamps && Overlaps(d, a)
  }

  /** `write_memo`: what overlaps the address goes first. */
  ghost function Written(s: Shelf, a: Addr, value: Option<Value>, keys: Fields, stamp: Stamp): Shelf {
    var d := Dropped(s, Overlapping(s, a));
    Shelf(d.stamps[a := stamp],
          if value.Some? then Insert(d.values, a, value.value) else d.values,
          Insert(d.keys, a, Object(keys)))
  }

  /** `evict_memo`: what stands at exactly the address goes. */
  ghost function Evicted(s: Shelf, a: Addr): Shelf {
    Dropped(s, if a in s.stamps then {a} else {})
  }

  /** `drop_memo_hash`: the hash is taken out of the keys in place. */
  function Unhashed(s: Shelf, a: Addr): Shelf {
    if HasHash(s, a) then s.(keys := Insert(s.keys, a, Object(Lookup(s.keys, a).value.fields - {HASH}))) else s
  }

  /** What a reader sees of a memo without its hash. */
  function WithoutHash(m: Memo): Memo {
    if m.keys.Some? && m.keys.value.Object? then m.(keys := Some(Object(m.keys.value.fields - {HASH}))) else m
  }

  // ---- What each leaves -------------------------------------------------

  /** No leaf of a memo's is cut with memos it does not overlap. */
  lemma CutElsewhere(f: Fields, gone: set<Addr>, a: Addr)
    requires a != [] && forall e | e in gone :: !Overlaps(e, a)
    ensures Lookup(CutTree(f, gone), a) == Lookup(f, a)
  {
    CutTreeIs(f, gone);
    forall b | a <= b
      ensures Leaf(CutTree(f, gone), b) == Leaf(f, b)
    {
      forall e | e in gone
        ensures !(e <= b)
      {
        assert e <= b ==> Overlaps(e, a);
      }
    }
    SubtreeIsItsLeaves(CutTree(f, gone), f, a);
  }

  lemma InsertElsewhere(f: Fields, d: Addr, v: Value, a: Addr)
    requires a != [] && d != [] && !Overlaps(d, a)
    ensures Lookup(Insert(f, d, v), a) == Lookup(f, a)
  {
    forall b | a <= b
      ensures Leaf(Insert(f, d, v), b) == Leaf(f, b)
    {
      LeafInsert(f, d, v, b);
      assert b < d ==> Overlaps(d, a);
      assert d <= b ==> Overlaps(d, a);
    }
    SubtreeIsItsLeaves(Insert(f, d, v), f, a);
  }

  lemma {:induction false} InsertThere(f: Fields, d: Addr, v: Value)
    requires d != []
    ensures Lookup(Insert(f, d, v), d) == Some(v)
    decreases |d|
  {
    if |d| > 1 {
      InsertThere(Members(f, d[0]), d[1..], v);
    }
  }

  lemma DroppedElsewhere(s: Shelf, gone: set<Addr>, a: Addr)
    requires a != [] && a !in gone && forall e | e in gone :: !Overlaps(e, a)
    ensures MemoAt(Dropped(s, gone), a) == MemoAt(s, a)
  {
    CutElsewhere(s.values, gone, a);
    CutElsewhere(s.keys, gone, a);
  }

  lemma LeavesLeft(f: Fields, stamps: set<Addr>, gone: set<Addr>, b: Addr)
    requires Leaf(f, b).Some? ==> Covered(stamps, b)
    ensures Leaf(CutTree(f, gone), b).Some? ==> Covered(stamps - gone, b) && Leaf(f, b).Some?
  {
    CutTreeIs(f, gone);
    if Leaf(CutTree(f, gone), b).Some? {
      var d :| d in stamps && d <= b;
      assert d !in gone;
      assert d in stamps - gone;
    }
  }

  lemma DropKeeps(s: Shelf, gone: set<Addr>)
    requires ShelfOk(s) && gone <= s.stamps.Keys
    ensures ShelfOk(Dropped(s, gone))
  {
    var t := Dropped(s, gone);
    forall a | a in t.stamps
      ensures Lookup(t.keys, a).Some? && Lookup(t.keys, a).value.Object?
    {
      DroppedElsewhere(s, gone, a);
    }
    assert t.stamps.Keys == s.stamps.Keys - gone;
    forall b
      ensures Leaf(t.values, b).Some? ==> Covered(t.stamps.Keys, b)
      ensures Leaf(t.keys, b).Some? ==> Covered(t.stamps.Keys, b)
    {
      LeavesLeft(s.values, s.stamps.Keys, gone, b);
      LeavesLeft(s.keys, s.stamps.Keys, gone, b);
    }
  }

  /** Once the memos overlapping `a` are gone, nothing overlaps it. */
  lemma NothingThere(s: Shelf, a: Addr, b: Addr)
    requires ShelfOk(s) && Overlaps(a, b)
    ensures Leaf(CutTree(s.values, Overlapping(s, a)), b).None? || b < a
    ensures Leaf(CutTree(s.keys, Overlapping(s, a)), b).None? || b < a
  {
    var gone := Overlapping(s, a);
    LeavesLeft(s.values, s.stamps.Keys, gone, b);
    LeavesLeft(s.keys, s.stamps.Keys, gone, b);
    if a <= b && Covered(s.stamps.Keys - gone, b) {
      var d :| d in s.stamps.Keys - gone && d <= b;
      assert Overlaps(d, a);
    }
  }

  /** A memo written stands at its address, its absence too, and every memo at an
      address that does not overlap it stands as it was. */
  lemma WrittenIs(s: Shelf, a: Addr, value: Option<Value>, keys: Fields, stamp: Stamp, d: Addr)
    requires ShelfOk(s) && a != []
    ensures var t := Written(s, a, value, keys, stamp);
      && MemoAt(t, a) == Memo(Some(stamp), value, Some(Object(keys)))
      && (d != a ==> (d in t.stamps <==> d in s.stamps && !Overlaps(a, d)))
      && (d in s.stamps && !Overlaps(a, d) ==> MemoAt(t, d) == MemoAt(s, d))
  {
    var gone := Overlapping(s, a);
    var l, t := Dropped(s, gone), Written(s, a, value, keys, stamp);
    InsertThere(l.keys, a, Object(keys));
    if value.Some? {
      InsertThere(l.values, a, value.value);
    } else {
      forall b | a <= b
        ensures Leaf(l.values, b).None?
      {
        NothingThere(s, a, b);
      }
      if Lookup(l.values, a).Some? {
        var b := HeldLeaf(l.values, a);
      }
    }
    if d in s.stamps && !Overlaps(a, d) {
      OthersNotGone(s, a, d);
      InsertElsewhere(l.keys, a, Object(keys), d);
      if value.Some? {
        InsertElsewhere(l.values, a, value.value, d);
      }
    }
  }

  /** What another memo holds is not cut with the memos overlapping `a`. */
  lemma OthersNotGone(s: Shelf, a: Addr, d: Addr)
    requires ShelfOk(s) && d in s.stamps && !Overlaps(a, d)
    ensures MemoAt(Dropped(s, Overlapping(s, a)), d) == MemoAt(s, d)
  {
    forall e | e in Overlapping(s, a)
      ensures !Overlaps(e, d)
    {
      assert e in s.stamps;
    }
    DroppedElsewhere(s, Overlapping(s, a), d);
  }

  lemma CoveredBy(at: set<Addr>, d: Addr, b: Addr)
    requires d in at && d <= b
    ensures Covered(at, b)
  {
  }

  lemma WriteKeepsLeaf(s: Shelf, a: Addr, value: Option<Value>, keys: Fields, stamp: Stamp, b: Addr)
    requires ShelfOk(s) && a != []
    ensures var t := Written(s, a, value, keys, stamp);
      && (Leaf(t.values, b).Some? ==> Covered(t.stamps.Keys, b))
      && (Leaf(t.keys, b).Some? ==> Covered(t.stamps.Keys, b))
  {
    var gone := Overlapping(s, a);
    var l, t := Dropped(s, gone), Written(s, a, value, keys, stamp);
    LeafInsert(l.keys, a, Object(keys), b);
    if value.Some? {
      LeafInsert(l.values, a, value.value, b);
    }
    if a <= b {
      CoveredBy(t.stamps.Keys, a, b);
    } else {
      LeavesLeft(s.values, s.stamps.Keys, gone, b);
      LeavesLeft(s.keys, s.stamps.Keys, gone, b);
      if Covered(s.stamps.Keys - gone, b) {
        var d :| d in s.stamps.Keys - gone && d <= b;
        CoveredBy(t.stamps.Keys, d, b);
      }
    }
  }

  lemma WriteKeeps(s: Shelf, a: Addr, value: Option<Value>, keys: Fields, stamp: Stamp)
    requires ShelfOk(s) && a != []
    ensures ShelfOk(Written(s, a, value, keys, stamp))
  {
    var t := Written(s, a, value, keys, stamp);
    forall b
      ensures Leaf(t.values, b).Some? ==> Covered(t.stamps.Keys, b)
      ensures Leaf(t.keys, b).Some? ==> Covered(t.stamps.Keys, b)
    {
      WriteKeepsLeaf(s, a, value, keys, stamp, b);
    }
    forall d | d in t.stamps
      ensures Lookup(t.keys, d).Some? && Lookup(t.keys, d).value.Object?
    {
      WrittenIs(s, a, value, keys, stamp, d);
    }
    forall d, e | d in t.stamps && e in t.stamps && Overlaps(d, e)
      ensures d == e
    {
      WrittenIs(s, a, value, keys, stamp, d);
      WrittenIs(s, a, value, keys, stamp, e);
    }
  }

  /** An eviction takes the memo at its own address, and no other. */
  lemma EvictedIs(s: Shelf, a: Addr, d: Addr)
    requires ShelfOk(s)
    ensures ShelfOk(Evicted(s, a))
    ensures a !in Evicted(s, a).stamps
    ensures a in s.stamps ==> Lookup(Evicted(s, a).values, a).None? && Lookup(Evicted(s, a).keys, a).None?
    ensures d in s.stamps && d != a ==> d in Evicted(s, a).stamps && MemoAt(Evicted(s, a), d) == MemoAt(s, d)
  {
    var gone := if a in s.stamps then {a} else {};
    DropKeeps(s, gone);
    if a in s.stamps {
      CutGone(s.values, a);
      CutGone(s.keys, a);
    }
    if d in s.stamps && d != a {
      DroppedElsewhere(s, gone, d);
    }
  }

  lemma CutGone(f: Fields, a: Addr)
    requires a != []
    ensures Lookup(CutTree(f, {a}), a).None?
  {
    CutTreeIs(f, {a});
    forall b | a <= b
      ensures Leaf(CutTree(f, {a}), b).None?
    {
      CoveredBy({a}, a, b);
    }
    if Lookup(CutTree(f, {a}), a).Some? {
      var b := HeldLeaf(CutTree(f, {a}), a);
    }
  }

  /** Taking a hash leaves the rest of the memo, and every other memo whole. */
  lemma UnhashedIs(s: Shelf, a: Addr, d: Addr)
    requires ShelfOk(s) && a in s.stamps && d in s.stamps
    ensures Unhashed(s, a).stamps == s.stamps
    ensures MemoAt(Unhashed(s, a), d) == if d == a then WithoutHash(MemoAt(s, a)) else MemoAt(s, d)
  {
    if HasHash(s, a) {
      var v := Object(Lookup(s.keys, a).value.fields - {HASH});
      InsertThere(s.keys, a, v);
      if d != a {
        InsertElsewhere(s.keys, a, v, d);
      }
    } else {
      assert Lookup(s.keys, a).value.fields - {HASH} == Lookup(s.keys, a).value.fields;
    }
  }

  lemma UnhashKeeps(s: Shelf, a: Addr)
    requires ShelfOk(s) && a in s.stamps
    ensures ShelfOk(Unhashed(s, a))
  {
    var t := Unhashed(s, a);
    forall d | d in t.stamps
      ensures Lookup(t.keys, d).Some? && Lookup(t.keys, d).value.Object?
    {
      UnhashedIs(s, a, d);
    }
    if HasHash(s, a) {
      var v := Object(Lookup(s.keys, a).value.fields - {HASH});
      forall b | Leaf(t.keys, b).Some?
        ensures Covered(t.stamps.Keys, b)
      {
        LeafInsert(s.keys, a, v, b);
        if a <= b {
          CoveredBy(t.stamps.Keys, a, b);
        }
      }
    }
  }

  // ---- An invalidation at one directory ---------------------------------

  /** Of the memos of `s`, those of `hit` have lost their hash, and nothing else moved. */
  ghost predicate HashesGone(s: Shelf, hit: set<Addr>, t: Shelf) {
    && t.stamps == s.stamps
    && forall d {:trigger MemoAt(t, d)} | d in s.stamps :: MemoAt(t, d) == if d in hit then WithoutHash(MemoAt(s, d)) else MemoAt(s, d)
  }

  lemma HashesGoneOne(s: Shelf, hit: set<Addr>, t: Shelf, a: Addr)
    requires ShelfOk(s) && ShelfOk(t) && HashesGone(s, hit, t) && a in s.stamps
    ensures ShelfOk(Unhashed(t, a)) && HashesGone(s, hit + {a}, Unhashed(t, a))
  {
    UnhashKeeps(t, a);
    forall d | d in s.stamps
      ensures MemoAt(Unhashed(t, a), d) == if d in hit + {a} then WithoutHash(MemoAt(s, d)) else MemoAt(s, d)
    {
      UnhashedIs(t, a, d);
      assert MemoAt(t, d) == if d in hit then WithoutHash(MemoAt(s, d)) else MemoAt(s, d);
      TwiceIsOnce(MemoAt(s, d));
    }
  }

  lemma TwiceIsOnce(m: Memo)
    ensures WithoutHash(WithoutHash(m)) == WithoutHash(m)
  {
    if m.keys.Some? && m.keys.value.Object? {
      assert m.keys.value.fields - {HASH} - {HASH} == m.keys.value.fields - {HASH};
    }
  }

  /** A memo has a hash after an invalidation if it had one and was not hit. */
  lemma HashLeft(s: Shelf, hit: set<Addr>, t: Shelf, a: Addr)
    requires HashesGone(s, hit, t) && a in s.stamps
    ensures HasHash(t, a) <==> HasHash(s, a) && a !in hit
  {
    assert MemoAt(t, a) == if a in hit then WithoutHash(MemoAt(s, a)) else MemoAt(s, a);
  }
}
