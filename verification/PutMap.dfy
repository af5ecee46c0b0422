/** The put layer changed in place, as src/cache.rs changes it: a put walks its
    value to its leaves and lands them one by one, an eviction takes a subtree out
    and puts back what deeper addresses hold. Each does what its step in `Puts`
    says, in whatever order the maps are iterated. */
module PutMap {
  import opened Prelude
  import opened Tree
  import opened Puts
  import opened TreeCuts

  type Leaves = seq<(Addr, Value)>

  ghost predicate Listed(leaves: Leaves, a: Addr) {
    exists i :: 0 <= i < |leaves| && leaves[i].0 == a
  }

  /** Each of `leaves` is a record of `value` at `node`. */
  ghost predicate OfValue(leaves: Leaves, node: Addr, value: Value) {
    forall i | 0 <= i < |leaves| ::
      node <= leaves[i].0 && leaves[i].0 != [] && LeafIn(value, leaves[i].0[|node|..]) == Some(leaves[i].1)
  }

  /** Every record of `value` at `node` whose next segment is not in `but` is listed. */
  ghost predicate AllListed(leaves: Leaves, node: Addr, value: Value, but: set<Seg>) {
    forall a: Addr {:trigger Listed(leaves, a)} |
      node <= a && a != [] && LeafIn(value, a[|node|..]).Some? && !(node < a && a[|node|] in but) ::
      Listed(leaves, a)
  }

  // ---- The records of a value -------------------------------------------

  lemma BelowKey(node: Addr, value: Value, k: Seg, a: Addr)
    requires value.Object? && k in value.fields && node + [k] <= a
    ensures node < a && a[|node|] == k
    ensures LeafIn(value, a[|node|..]) == LeafIn(value.fields[k], a[|node + [k]|..])
  {
    assert a[|node|] == (node + [k])[|node|] == k;
    assert a[|node|..][1..] == a[|node + [k]|..];
    LeafHead(value.fields, a[|node|..]);
  }

  lemma AppendedOf(before: Leaves, below: Leaves, node: Addr, value: Value, k: Seg)
    requires value.Object? && k in value.fields
    requires OfValue(before, node, value) && OfValue(below, node + [k], value.fields[k])
    ensures OfValue(before + below, node, value)
  {
    forall i | 0 <= i < |below|
      ensures node < below[i].0 && LeafIn(value, below[i].0[|node|..]) == Some(below[i].1)
    {
      BelowKey(node, value, k, below[i].0);
    }
  }

  lemma AppendedAll(before: Leaves, below: Leaves, node: Addr, value: Value, k: Seg, but: set<Seg>)
    requires value.Object? && k in value.fields && (value.fields != map[] || node == [])
    requires AllListed(before, node, value, but) && AllListed(below, node + [k], value.fields[k], {})
    ensures AllListed(before + below, node, value, but - {k})
  {
    var all := before + below;
    forall a: Addr | node <= a && a != [] && LeafIn(value, a[|node|..]).Some? && !(node < a && a[|node|] in but - {k})
      ensures Listed(all, a)
    {
      if node < a && a[|node|] == k {
        assert a == a[..|node|] + [k] + a[|node| + 1..];
        assert node + [k] <= a;
        BelowKey(node, value, k, a);
        assert Listed(below, a);
        var i :| 0 <= i < |below| && below[i].0 == a;
        assert all[|before| + i].0 == a;
      } else {
        assert Listed(before, a);
        var i :| 0 <= i < |before| && before[i].0 == a;
        assert all[i].0 == a;
      }
    }
  }

  lemma OneLeaf(node: Addr, value: Value)
    requires node != [] && IsLeaf(value)
    ensures OfValue([(node, value)], node, value) && AllListed([(node, value)], node, value, {})
  {
    assert node[|node|..] == [];
    forall a: Addr | node <= a && LeafIn(value, a[|node|..]).Some?
      ensures Listed([(node, value)], a)
    {
      assert a[|node|..] == [];
      assert a == node;
      assert [(node, value)][0].0 == a;
    }
  }

  /** `walk_leaves`: every record a value writes, and nothing else. At the root,
      where the value is an object, an empty one writes none. */
  method WalkLeaves(node: Addr, value: Value) returns (leaves: Leaves)
    requires PutOk(node, value)
    ensures OfValue(leaves, node, value) && AllListed(leaves, node, value, {})
    decreases value
  {
    leaves := [];
    if value.Object? && (value.fields != map[] || node == []) {
      var todo := value.fields.Keys;
      assert AllListed(leaves, node, value, todo) by {
        forall a: Addr | node <= a && a != [] && LeafIn(value, a[|node|..]).Some?
          ensures node < a && a[|node|] in todo
        {
          if node < a {
            LeafHead(value.fields, a[|node|..]);
          }
        }
      }
      while todo != {}
        invariant todo <= value.fields.Keys
        invariant OfValue(leaves, node, value) && AllListed(leaves, node, value, todo)
        decreases |todo|
      {
        hide OfValue, AllListed, LeafIn, Leaf;
        var k :| k in todo;
        var below := WalkLeaves(node + [k], value.fields[k]);
        AppendedOf(leaves, below, node, value, k);
        AppendedAll(leaves, below, node, value, k, todo);
        leaves := leaves + below;
        todo := todo - {k};
      }
    } else {
      OneLeaf(node, value);
      leaves := [(node, value)];
    }
  }

  // ---- Landing them -----------------------------------------------------

  /** The records of `leaves` inserted in turn. */
  function InsertAll(f: Fields, leaves: Leaves): Fields {
    if leaves == [] then f
    else
      var last := leaves[|leaves| - 1];
      Insert(InsertAll(f, leaves[..|leaves| - 1]), last.0, last.1)
  }

  lemma ApartIn(value: Value, a: Addr, b: Addr)
    requires LeafIn(value, a).Some? && LeafIn(value, b).Some? && a <= b
    ensures a == b
  {
    if a != [] {
      LeavesApart(value.fields, a, b);
    }
  }

  lemma LastInserted(f: Fields, last: (Addr, Value), b: Addr)
    requires last.0 != [] && IsLeaf(last.1)
    ensures Leaf(Insert(f, last.0, last.1), b) ==
      if b == last.0 then Some(last.1) else if Overlaps(b, last.0) then None else Leaf(f, b)
  {
    LeafInsert(f, last.0, last.1, b);
    if last.0 <= b {
      var rest := b[|last.0|..];
      assert rest == [] <==> b == last.0;
    }
  }

  /** Landing records of `value` at an address nothing stands at. */
  lemma {:induction false} LeafInsertAll(f: Fields, leaves: Leaves, node: Addr, value: Value, b: Addr)
    requires OfValue(leaves, node, value)
    requires node <= b ==> Leaf(f, b).None?
    ensures Leaf(InsertAll(f, leaves), b) ==
      if node <= b then (if Listed(leaves, b) then LeafIn(value, b[|node|..]) else None)
      else if b < node && leaves != [] then None
      else Leaf(f, b)
    decreases |leaves|
  {
    if leaves != [] {
      var front, last := leaves[..|leaves| - 1], leaves[|leaves| - 1];
      LeafInsertAll(f, front, node, value, b);
      assert Listed(leaves, b) <==> Listed(front, b) || last.0 == b by {
        if Listed(front, b) {
          var i :| 0 <= i < |front| && front[i].0 == b;
          assert leaves[i].0 == b;
        }
      }
      LeafOfLeaf(value, last.0[|node|..]);
      LastInserted(InsertAll(f, front), last, b);
      if node <= b && b != last.0 && Overlaps(b, last.0) && LeafIn(value, b[|node|..]).Some? {
        var x, y := b[|node|..], last.0[|node|..];
        assert b == node + x && last.0 == node + y;
        if b <= last.0 {
          assert x <= y;
          ApartIn(value, x, y);
        } else {
          assert y <= x;
          ApartIn(value, y, x);
        }
      }
    }
  }

  lemma LeafOfLeaf(v: Value, a: Addr)
    ensures LeafIn(v, a).Some? ==> IsLeaf(LeafIn(v, a).value)
  {
  }

  /** All the records of `value` landed at `node` are `value` placed there. */
  lemma LandedIsPlaced(f: Fields, leaves: Leaves, node: Addr, value: Value)
    requires PutOk(node, value) && OfValue(leaves, node, value) && AllListed(leaves, node, value, {})
    requires leaves != [] || node == []
    ensures InsertAll(Without(f, node), leaves) == Place(Without(f, node), node, value)
  {
    var base := Without(f, node);
    forall b
      ensures Leaf(InsertAll(base, leaves), b) == Leaf(Place(base, node, value), b)
    {
      LeafWithout(f, node, b);
      LeafInsertAll(base, leaves, node, value, b);
      if node != [] {
        LeafInsert(base, node, value, b);
      }
      if node <= b && b != [] && LeafIn(value, b[|node|..]).Some? {
        assert Listed(leaves, b);
      }
    }
    TreeIsItsLeaves(InsertAll(base, leaves), Place(base, node, value));
  }

  lemma NoLeavesEmpty(leaves: Leaves, node: Addr, value: Value)
    requires PutOk(node, value) && OfValue(leaves, node, value) && AllListed(leaves, node, value, {})
    ensures leaves == [] <==> node == [] && value == EMPTY
  {
    var a := SomeLeaf(value);
    assert (node + a)[|node|..] == a;
    if leaves == [] {
      assert !Listed(leaves, node + a);
    } else {
      assert LeafIn(value, leaves[0].0[|node|..]).Some?;
    }
  }

  // ---- Taking out and putting back --------------------------------------

  /** `f` is `from` without the subtree at `node`, but for what the addresses of
      `back` hold. */
  ghost predicate PutBack(from: Fields, node: Addr, back: set<Addr>, f: Fields) {
    forall a {:trigger Leaf(f, a)} ::
      Leaf(f, a) == if node <= a && !Covered(back, a) then None else Leaf(from, a)
  }

  lemma BackOne(from: Fields, node: Addr, back: set<Addr>, f: Fields, d: Addr, v: Value)
    requires PutBack(from, node, back, f) && node < d && Lookup(from, d) == Some(v)
    ensures PutBack(from, node, back + {d}, Insert(f, d, v))
  {
    forall a
      ensures Leaf(Insert(f, d, v), a) ==
        if node <= a && !Covered(back + {d}, a) then None else Leaf(from, a)
    {
      LeafInsert(f, d, v, a);
      LeafAcross(from, d, a);
      CoveredWith(back, d, a);
    }
  }

  /** What holds nothing puts nothing back. */
  lemma BackNone(from: Fields, node: Addr, back: set<Addr>, f: Fields, d: Addr)
    requires PutBack(from, node, back, f) && d != [] && Lookup(from, d).None?
    ensures PutBack(from, node, back + {d}, f)
  {
    forall a
      ensures Leaf(f, a) == if node <= a && !Covered(back + {d}, a) then None else Leaf(from, a)
    {
      CoveredWith(back, d, a);
      if d <= a {
        NothingBelow(from, d, a);
      }
    }
  }

  lemma PutBackNone(from: Fields, node: Addr)
    ensures PutBack(from, node, {}, Without(from, node))
  {
    forall a
      ensures Leaf(Without(from, node), a) == if node <= a && !Covered({}, a) then None else Leaf(from, a)
    {
      LeafWithout(from, node, a);
    }
  }

  // ---- The layer --------------------------------------------------------

  class PutMap {
    var fields: Fields
    var stamps: map<Addr, Stamp>

    ghost function View(): Layer
      reads this
    {
      Layer(fields, stamps)
    }

    constructor ()
      ensures View() == NO_PUTS
    {
      fields, stamps := map[], map[];
    }

    /** `drop_put_subtree`: whether anything went. */
    method Drop(node: Addr) returns (removed: bool)
      modifies this
      ensures View() == DropSubtree(old(View()), node)
      ensures removed <==> Holds(old(fields), node)
    {
      if node == [] {
        removed := fields != map[];
        fields := map[];
      } else {
        removed := Lookup(fields, node).Some?;
        fields := Remove(fields, node);
      }
      stamps := map d | d in stamps && !AtOrBelow(d, node) :: stamps[d];
      stamps := map d | d in stamps && Holds(fields, d) :: stamps[d];
    }

    /** `apply_static_write` under the put label. */
    method Put(node: Addr, value: Value, stamp: Stamp)
      requires PutOk(node, value)
      modifies this
      ensures View() == Write(old(View()), node, value, stamp)
    {
      var leaves := WalkLeaves(node, value);
      NoLeavesEmpty(leaves, node, value);
      var removed := Drop(node);
      if leaves == [] {
        return;
      }
      ghost var dropped := View();
      Unseat(node);
      stamps := stamps[node := stamp];
      var i := 0;
      assert leaves[..0] == [];
      while i < |leaves|
        invariant i <= |leaves|
        invariant fields == InsertAll(dropped.fields, leaves[..i])
        invariant stamps == (map a | a in dropped.stamps && !InTheWay(dropped.fields, a, node) :: dropped.stamps[a])[node := stamp]
      {
        assert leaves[..i + 1][..i] == leaves[..i];
        fields := Insert(fields, leaves[i].0, leaves[i].1);
        i := i + 1;
      }
      assert leaves[..i] == leaves;
      LandedIsPlaced(old(fields), leaves, node, value);
    }

    /** The stamps of what `node` is about to turn into objects go. */
    method Unseat(node: Addr)
      modifies this`stamps
      ensures stamps == map a | a in old(stamps) && !InTheWay(fields, a, node) :: old(stamps)[a]
    {
      var at := node;
      while |at| > 1
        invariant at <= node
        invariant stamps == map a | a in old(stamps) && !(InTheWay(fields, a, node) && |a| >= |at|) :: old(stamps)[a]
        decreases |at|
      {
        ghost var below := at;
        at := at[..|at| - 1];
        forall a | InTheWay(fields, a, node) && |a| == |at|
          ensures a == at
        {
        }
        if Lookup(fields, at).Some? && Lookup(fields, at).value.Scalar? {
          stamps := stamps - {at};
        }
      }
    }

    /** `drop_put_address`: whether anything went. */
    method Evict(node: Addr) returns (removed: bool)
      modifies this
      ensures Evicts(old(View()), node, View())
      ensures removed <==> Holds(old(fields), node)
    {
      ghost var was := View();
      var deeper := set d | d in stamps && d != node && AtOrBelow(d, node);
      assert deeper == Deeper(was, node);
      if deeper == {} {
        removed := Drop(node);
        EvictsNoneDeeper(was, node);
        return;
      }
      var held, kept := fields, map d | d in deeper :: stamps[d];
      removed := Drop(node);
      PutBackNone(was.fields, node);
      Restore(held, node, deeper);
      stamps := stamps + kept;
    }

    /** The addresses of `deeper`, in any order, are given back what they held. */
    method Restore(held: Fields, node: Addr, deeper: set<Addr>)
      requires forall d | d in deeper :: node < d
      requires PutBack(held, node, {}, fields)
      modifies this`fields
      ensures PutBack(held, node, deeper, fields)
    {
      hide PutBack;
      var todo := deeper;
      assert deeper - todo == {};
      while todo != {}
        invariant todo <= deeper
        invariant PutBack(held, node, deeper - todo, fields)
        decreases |todo|
      {
        var d :| d in todo;
        assert deeper - todo + {d} == deeper - (todo - {d});
        if Lookup(held, d).Some? {
          BackOne(held, node, deeper - todo, fields, d, Lookup(held, d).value);
          fields := Insert(fields, d, Lookup(held, d).value);
        } else {
          BackNone(held, node, deeper - todo, fields, d);
        }
        todo := todo - {d};
      }
      assert deeper - todo == deeper;
    }
  }
}
