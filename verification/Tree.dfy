/** Value trees and the addresses into them: the path helpers of
    src/provider/mod.rs that every layer of the cache is written with. */
module Tree {
  import opened Prelude

  type Seg = string

  /** A canonical address, as its segments. */
  type Addr = seq<Seg>

  /** A leaf value (a string, number or flag), or an object. */
  datatype Value = Scalar(text: string) | Object(fields: map<Seg, Value>)

  type Fields = map<Seg, Value>

  const EMPTY: Value := Object(map[])

  /** A record is a leaf: any scalar, and an object with no members. */
  predicate IsLeaf(v: Value) {
    v.Scalar? || v.fields == map[]
  }

  /** `overlaps`: one of the addresses is a prefix of the other. */
  predicate Overlaps(a: Addr, b: Addr) {
    a <= b || b <= a
  }

  // ---- The path helpers -------------------------------------------------

  /** `lookup_path`: nothing is found at the empty address, which no node stands at. */
  function Lookup(f: Fields, a: Addr): Option<Value>
    decreases |a|
  {
    if a == [] || a[0] !in f then None
    else if |a| == 1 then Some(f[a[0]])
    else match f[a[0]]
      case Object(m) => Lookup(m, a[1..])
      case Scalar(_) => None
  }

  /** The members of the object at `seg`; a scalar standing there has none. */
  function Members(f: Fields, seg: Seg): Fields {
    if seg in f && f[seg].Object? then f[seg].fields else map[]
  }

  /** `insert_path`: whatever stands in the way becomes an object. */
  function Insert(f: Fields, a: Addr, v: Value): Fields
    decreases |a|
  {
    if a == [] then f
    else if |a| == 1 then f[a[0] := v]
    else f[a[0] := Object(Insert(Members(f, a[0]), a[1..], v))]
  }

  /** `remove_path`: the containers the removal empties go too. */
  function Remove(f: Fields, a: Addr): Fields
    decreases |a|
  {
    if Lookup(f, a).None? then f
    else if |a| == 1 then f - {a[0]}
    else
      var rest := Remove(Members(f, a[0]), a[1..]);
      if rest == map[] then f - {a[0]} else f[a[0] := Object(rest)]
  }

  // ---- Trees by their leaves --------------------------------------------

  /** The leaf of `f` at `a`, if there is one. */
  function Leaf(f: Fields, a: Addr): Option<Value> {
    match Lookup(f, a)
    case Some(v) => if IsLeaf(v) then Some(v) else None
    case None => None
  }

  /** The leaf of the value `v` at `a` below it. */
  function LeafIn(v: Value, a: Addr): Option<Value> {
    if a == [] then (if IsLeaf(v) then Some(v) else None)
    else if v.Object? then Leaf(v.fields, a)
    else None
  }

  lemma LeafHead(f: Fields, a: Addr)
    requires a != []
    ensures Leaf(f, a) == if a[0] in f then LeafIn(f[a[0]], a[1..]) else None
  {
  }

  /** An insertion puts the leaves of `v` at `a` in place of every leaf that
      overlaps `a`, and leaves the others be. */
  lemma {:induction false} LeafInsert(f: Fields, a: Addr, v: Value, b: Addr)
    requires a != []
    ensures Leaf(Insert(f, a, v), b) ==
      if a <= b then LeafIn(v, b[|a|..]) else if b < a then None else Leaf(f, b)
    decreases |a|
  {
    if b != [] {
      LeafHead(f, b);
      LeafHead(Insert(f, a, v), b);
      if |a| > 1 && b[0] == a[0] {
        var m := Members(f, a[0]);
        var n := Insert(m, a[1..], v);
        LeafInsert(m, a[1..], v, b[1..]);
        assert a <= b <==> a[1..] <= b[1..];
        assert b < a <==> b[1..] < a[1..];
        if a <= b {
          assert b[1..][|a[1..]|..] == b[|a|..];
        }
        if b[1..] == [] {
          InsertHolds(m, a[1..], v);
        }
      }
    }
  }

  lemma InsertHolds(f: Fields, a: Addr, v: Value)
    requires a != []
    ensures a[0] in Insert(f, a, v)
  {
  }

  /** A removal takes exactly the leaves at the address and below it. */
  lemma {:induction false} LeafRemove(f: Fields, a: Addr, b: Addr)
    requires a != []
    ensures Leaf(Remove(f, a), b) == if a <= b then None else Leaf(f, b)
    decreases |a|
  {
    if Lookup(f, a).None? {
      if a <= b {
        NothingBelow(f, a, b);
      }
    } else if b != [] {
      LeafHead(f, b);
      LeafHead(Remove(f, a), b);
      if |a| > 1 && b[0] == a[0] {
        var m := f[a[0]].fields;
        LeafRemove(m, a[1..], b[1..]);
        assert a <= b <==> a[1..] <= b[1..];
        if b[1..] != [] {
          LeafHead(m, b[1..]);
        }
      }
    }
  }

  lemma {:induction false} NothingBelow(f: Fields, a: Addr, b: Addr)
    requires Lookup(f, a).None? && a != [] && a <= b
    ensures Lookup(f, b).None?
    decreases |a|
  {
    if a[0] in f && |a| > 1 && f[a[0]].Object? {
      NothingBelow(f[a[0]].fields, a[1..], b[1..]);
    }
  }

  /** Every value has a leaf. */
  lemma {:induction false} SomeLeaf(v: Value) returns (a: Addr)
    ensures LeafIn(v, a).Some?
    decreases v
  {
    if IsLeaf(v) {
      a := [];
    } else {
      var k :| k in v.fields;
      var below := SomeLeaf(v.fields[k]);
      a := [k] + below;
      assert a[1..] == below;
      LeafHead(v.fields, a);
    }
  }

  /** What stands at an address is a leaf there or has one below. */
  lemma {:induction false} HeldLeaf(f: Fields, a: Addr) returns (b: Addr)
    requires Lookup(f, a).Some?
    ensures a <= b && Leaf(f, b).Some?
    decreases |a|
  {
    if |a| == 1 {
      var c := SomeLeaf(f[a[0]]);
      b := a + c;
      assert b[1..] == c;
    } else {
      var c := HeldLeaf(f[a[0]].fields, a[1..]);
      b := [a[0]] + c;
      assert b[1..] == c;
      assert a == [a[0]] + a[1..];
    }
    LeafHead(f, b);
  }

  lemma {:induction false} LeafHolds(f: Fields, a: Addr, b: Addr)
    requires a != [] && a <= b && Leaf(f, b).Some?
    ensures Lookup(f, a).Some?
  {
    if Lookup(f, a).None? {
      NothingBelow(f, a, b);
    }
  }

  /** Through what stands at `d`: its leaves are below, and none is above. */
  lemma {:induction false} LeafAcross(f: Fields, d: Addr, a: Addr)
    requires Lookup(f, d).Some?
    ensures d <= a ==> Leaf(f, a) == LeafIn(Lookup(f, d).value, a[|d|..])
    ensures a < d ==> Leaf(f, a).None?
    decreases |d|
  {
    if a != [] && |d| > 1 && a[0] == d[0] {
      var m := f[d[0]].fields;
      LeafAcross(m, d[1..], a[1..]);
      LeafHead(f, a);
      if d <= a {
        assert a[1..][|d[1..]|..] == a[|d|..];
      } else if a < d && |a| > 1 {
        assert a[1..] < d[1..];
      }
    } else if |d| == 1 && d <= a {
      LeafHead(f, a);
    }
  }

  /** No leaf lies below another. */
  lemma {:induction false} LeavesApart(f: Fields, a: Addr, b: Addr)
    requires Leaf(f, a).Some? && Leaf(f, b).Some? && a <= b
    ensures a == b
    decreases |a|
  {
    if |a| > 1 {
      LeavesApart(f[a[0]].fields, a[1..], b[1..]);
    } else if |b| > 1 {
      LeafHead(f, b);
    }
  }

  ghost predicate SameLeaves(f: Fields, g: Fields) {
    forall a :: Leaf(f, a) == Leaf(g, a)
  }

  /** A tree is its leaves. */
  lemma {:induction false} TreeIsItsLeaves(f: Fields, g: Fields)
    requires SameLeaves(f, g)
    ensures f == g
    decreases Object(f)
  {
    forall k
      ensures k in f <==> k in g
      ensures k in f && k in g ==> f[k] == g[k]
    {
      if k in f {
        var b := HeldLeaf(f, [k]);
        assert Leaf(g, b).Some?;
      }
      if k in g {
        var b := HeldLeaf(g, [k]);
        assert Leaf(f, b).Some?;
      }
      if k in f && k in g {
        assert Leaf(f, [k]) == Leaf(g, [k]);
        if f[k].Object? && g[k].Object? {
          forall a
            ensures Leaf(f[k].fields, a) == Leaf(g[k].fields, a)
          {
            assert Leaf(f, [k] + a) == Leaf(g, [k] + a);
            assert ([k] + a)[1..] == a;
          }
          TreeIsItsLeaves(f[k].fields, g[k].fields);
        }
      }
    }
  }
}
