/** Subtrees taken out of a tree at a set of addresses, in whatever order. */
module TreeCuts {
  import opened Prelude
  import opened Tree
  import opened Puts

  /** The tree with the subtree at every address of `at` gone. */
  ghost predicate IsCut(f: Fields, at: set<Addr>, g: Fields) {
    forall a {:trigger Leaf(g, a)} :: Leaf(g, a) == if Covered(at, a) then None else Leaf(f, a)
  }

  ghost function CutTree(f: Fields, at: set<Addr>): Fields {
    if at == {} then f
    else
      var d :| d in at;
      Without(CutTree(f, at - {d}), d)
  }

  lemma {:induction false} CutTreeIs(f: Fields, at: set<Addr>)
    ensures IsCut(f, at, CutTree(f, at))
  {
    if at != {} {
      var d :| d in at && CutTree(f, at) == Without(CutTree(f, at - {d}), d);
      CutTreeIs(f, at - {d});
      CutOne(f, at - {d}, CutTree(f, at - {d}), d);
      assert at - {d} + {d} == at;
    }
  }

  lemma CutOne(f: Fields, at: set<Addr>, g: Fields, d: Addr)
    requires IsCut(f, at, g)
    ensures IsCut(f, at + {d}, Without(g, d))
  {
    forall a
      ensures Leaf(Without(g, d), a) == if Covered(at + {d}, a) then None else Leaf(f, a)
    {
      LeafWithout(g, d, a);
      CoveredWith(at, d, a);
    }
  }

  lemma CoveredWith(at: set<Addr>, d: Addr, a: Addr)
    ensures Covered(at + {d}, a) <==> Covered(at, a) || d <= a
  {
    if Covered(at, a) {
      var e :| e in at && e <= a;
      assert e in at + {d};
    }
    if d <= a {
      assert d in at + {d};
    }
  }

  lemma CutIsOne(f: Fields, at: set<Addr>, g: Fields)
    requires IsCut(f, at, g)
    ensures g == CutTree(f, at)
  {
    CutTreeIs(f, at);
    forall a
      ensures Leaf(g, a) == Leaf(CutTree(f, at), a)
    {
      assert Leaf(g, a) == if Covered(at, a) then None else Leaf(f, a);
    }
    TreeIsItsLeaves(g, CutTree(f, at));
  }

  /** Two trees with the same leaves below an address hold the same there. */
  lemma SubtreeIsItsLeaves(f: Fields, g: Fields, a: Addr)
    requires a != [] && forall b | a <= b :: Leaf(f, b) == Leaf(g, b)
    ensures Lookup(f, a) == Lookup(g, a)
  {
    if Lookup(f, a).Some? {
      var b := HeldLeaf(f, a);
      LeafHolds(g, a, b);
    }
    if Lookup(g, a).Some? {
      var b := HeldLeaf(g, a);
      LeafHolds(f, a, b);
    }
    if Lookup(f, a).Some? && Lookup(g, a).Some? {
      var v, w := Lookup(f, a).value, Lookup(g, a).value;
      assert Leaf(f, a) == Leaf(g, a);
      if v.Object? && w.Object? {
        forall c
          ensures Leaf(v.fields, c) == Leaf(w.fields, c)
        {
          LeafAcross(f, a, a + c);
          LeafAcross(g, a, a + c);
          assert Leaf(f, a + c) == Leaf(g, a + c) && (a + c)[|a|..] == c;
        }
        TreeIsItsLeaves(v.fields, w.fields);
      } else {
        ScalarOrLeaf(f, g, a);
      }
    }
  }

  lemma ScalarOrLeaf(f: Fields, g: Fields, a: Addr)
    requires a != [] && forall b | a <= b :: Leaf(f, b) == Leaf(g, b)
    requires Lookup(f, a).Some? && Lookup(g, a).Some? && (Lookup(f, a).value.Scalar? || Lookup(g, a).value.Scalar?)
    ensures Lookup(f, a) == Lookup(g, a)
  {
    assert Leaf(f, a) == Leaf(g, a);
  }

  /** A tree without leaves is empty. */
  lemma NoLeavesNothing(f: Fields)
    requires forall a :: Leaf(f, a).None?
    ensures f == map[]
  {
    if f != map[] {
      var k :| k in f;
      var a := HeldLeaf(f, [k]);
    }
  }
}
