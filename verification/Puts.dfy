/** The put layer of one cache entry (src/cache.rs): the values of the put map, and the
    stamps of the puts that stand in it. */
module Puts {
  import opened Prelude
  import opened Tree
  import opened Keys

  /** When an address was written, and its ttl. */
  datatype Stamp = Stamp(written: nat, ttl: Option<nat>)

  datatype Layer = Layer(fields: Fields, stamps: map<Addr, Stamp>)

  const NO_PUTS := Layer(map[], map[])

  /** `is_at_or_below`: the text of `addr` is that of `node`, or goes on from it
      with a dot. An address that goes on with a bracket is not seen. */
  predicate AtOrBelow(addr: Addr, node: Addr) {
    node == [] || addr == node || (node < addr && Bare(addr[|node|]))
  }

  /** The two texts as the code compares them. */
  lemma AtOrBelowIs(addr: Addr, node: Addr)
    ensures AtOrBelow(addr, node) <==>
      Text(node) == "" || Text(addr) == Text(node)
      || (Text(node) < Text(addr) && Text(addr)[|Text(node)|] == '.')
  {
    hide Text, Suffix;
    if node == [] {
      TextOfRoot();
    } else {
      assert Text(node) != "" by { TextIs(node); }
      TextTellsApart(addr, node);
      GoesOnIs(addr, node);
      if node < addr {
        SuffixGoesOn(addr[|node|..]);
      }
    }
  }

  /** Something stands at `addr`: at the root, anything at all. */
  predicate Holds(f: Fields, addr: Addr) {
    if addr == [] then f != map[] else Lookup(f, addr).Some?
  }

  /** `put_address_for`: the nearest stamped address at or above `a`. */
  function Nearest(stamps: map<Addr, Stamp>, a: Addr): (n: Option<Addr>)
    ensures n.Some? ==> n.value in stamps && n.value <= a
    ensures forall d | d in stamps && d <= a :: n.Some? && d <= n.value
    decreases |a|
  {
    if a in stamps then Some(a)
    else if a == [] then None
    else
      assert forall d {:trigger d in stamps} | d in stamps && d <= a :: d <= a[..|a| - 1] by {
        forall d | d in stamps && d <= a
          ensures d <= a[..|a| - 1]
        {
          assert |d| == |a| ==> d == a;
        }
      }
      Nearest(stamps, a[..|a| - 1])
  }

  /** The nearest stamp is the one at or above `a` below every other. */
  lemma NearestIs(stamps: map<Addr, Stamp>, a: Addr, n: Addr)
    requires n in stamps && n <= a
    requires forall d | d in stamps && d <= a :: d <= n
    ensures Nearest(stamps, a) == Some(n)
  {
    var m := Nearest(stamps, a).value;
    assert n <= m && m <= n;
    assert |m| == |n| && m == n[..|m|] == n;
  }

  lemma NearestNone(stamps: map<Addr, Stamp>, a: Addr)
    requires forall d | d in stamps :: !(d <= a)
    ensures Nearest(stamps, a) == None
  {
  }

  /** Every stamped address holds something, and a stamp governs every leaf. */
  ghost predicate Stamped(l: Layer) {
    && (forall d | d in l.stamps :: Holds(l.fields, d))
    && (forall a {:trigger Leaf(l.fields, a)} | Leaf(l.fields, a).Some? :: Nearest(l.stamps, a).Some?)
  }

  // ---- What each operation does -----------------------------------------

  /** The subtree at `node`, everything at the root. */
  function Without(f: Fields, node: Addr): Fields {
    if node == [] then map[] else Remove(f, node)
  }

  /** `drop_put_subtree`. */
  function DropSubtree(l: Layer, node: Addr): Layer {
    var fields := Without(l.fields, node);
    Layer(fields, map d | d in l.stamps && !AtOrBelow(d, node) && Holds(fields, d) :: l.stamps[d])
  }

  /** The value of a root put is an object; everywhere else it may be anything. */
  predicate PutOk(node: Addr, value: Value) {
    node == [] ==> value.Object?
  }

  /** The value `value` put at `node` of a tree that holds nothing there. */
  function Place(f: Fields, node: Addr, value: Value): Fields
    requires PutOk(node, value)
  {
    if node == [] then value.fields else Insert(f, node, value)
  }

  /** What is in the way of `node`: an address above it that holds no object. */
  predicate InTheWay(f: Fields, at: Addr, node: Addr) {
    at != [] && at < node && Lookup(f, at).Some? && Lookup(f, at).value.Scalar?
  }

  /** `apply_static_write` of a put. A root put of an empty object has no leaves:
      it drops everything and leaves no stamp. */
  function Write(l: Layer, node: Addr, value: Value, stamp: Stamp): Layer
    requires PutOk(node, value)
  {
    var d := DropSubtree(l, node);
    if node == [] && value == EMPTY then d
    else Layer(Place(d.fields, node, value),
               (map a | a in d.stamps && !InTheWay(d.fields, a, node) :: d.stamps[a])[node := stamp])
  }

  /** The stamped addresses `drop_put_address` finds below `node`. */
  function Deeper(l: Layer, node: Addr): set<Addr> {
    set d | d in l.stamps && d != node && AtOrBelow(d, node)
  }

  /** The leaf `a` lies at or below one of `kept`. */
  predicate Covered(kept: set<Addr>, a: Addr) {
    exists d :: d in kept && d <= a
  }

  /** `drop_put_address`: the subtree at `node` goes, but for what the stamped
      addresses below it hold, which comes back with their stamps. */
  ghost predicate Evicts(l: Layer, node: Addr, v: Layer) {
    var kept := Deeper(l, node);
    && v.stamps == DropSubtree(l, node).stamps + (map d | d in kept :: l.stamps[d])
    && (forall a {:trigger Leaf(v.fields, a)} ::
          Leaf(v.fields, a) == if node <= a && !Covered(kept, a) then None else Leaf(l.fields, a))
  }

  // ---- The values each leaves -------------------------------------------

  lemma LeafWithout(f: Fields, node: Addr, a: Addr)
    ensures Leaf(Without(f, node), a) == if node <= a then None else Leaf(f, a)
  {
    if node != [] {
      LeafRemove(f, node, a);
    }
  }

  /** After a put the leaves of its value are at its address, no other leaf overlaps the
      address, and every other leaf is as it was. */
  lemma WriteStates(l: Layer, node: Addr, value: Value, stamp: Stamp, a: Addr)
    requires PutOk(node, value) && a != []
    ensures Leaf(Write(l, node, value, stamp).fields, a) ==
      if node <= a then LeafIn(value, a[|node|..]) else if a < node then None else Leaf(l.fields, a)
  {
    LeafWithout(l.fields, node, a);
    if node != [] {
      LeafInsert(Without(l.fields, node), node, value, a);
    }
  }

  lemma HoldsLeaf(f: Fields, d: Addr, a: Addr)
    requires d <= a && Leaf(f, a).Some?
    ensures Holds(f, d)
  {
    if d != [] {
      LeafHolds(f, d, a);
    }
  }

  lemma HeldSome(f: Fields, d: Addr) returns (a: Addr)
    requires Holds(f, d)
    ensures d <= a && Leaf(f, a).Some?
  {
    if d == [] {
      var k :| k in f;
      a := HeldLeaf(f, [k]);
    } else {
      a := HeldLeaf(f, d);
    }
  }

  /** No stamp survives at or below a dropped node, however it is written. */
  lemma DroppedBelow(l: Layer, node: Addr, d: Addr)
    requires d in DropSubtree(l, node).stamps
    ensures !(node <= d)
  {
    if node <= d {
      var a := HeldSome(Without(l.fields, node), d);
      LeafWithout(l.fields, node, a);
    }
  }

  /** A leaf outside the dropped subtree keeps the stamp that governs it. */
  lemma DropKeepsNearest(l: Layer, node: Addr, a: Addr)
    requires Leaf(l.fields, a).Some? && !(node <= a)
    ensures Nearest(DropSubtree(l, node).stamps, a) == Nearest(l.stamps, a)
  {
    var v := DropSubtree(l, node);
    LeafWithout(l.fields, node, a);
    var n := Nearest(l.stamps, a);
    if n.Some? {
      HoldsLeaf(v.fields, n.value, a);
      assert !AtOrBelow(n.value, node);
      NearestIs(v.stamps, a, n.value);
    } else {
      NearestNone(v.stamps, a);
    }
  }

  // ---- Every run of puts, removals and evictions ------------------------

  lemma DropStamped(l: Layer, node: Addr)
    requires Stamped(l)
    ensures Stamped(DropSubtree(l, node))
  {
    var v := DropSubtree(l, node);
    forall a | Leaf(v.fields, a).Some?
      ensures Nearest(v.stamps, a).Some?
    {
      LeafWithout(l.fields, node, a);
      DropKeepsNearest(l, node, a);
    }
  }

  /** After a put its leaves are governed by its own stamp, and every other leaf
      by the stamp it had. */
  lemma WriteNearest(l: Layer, node: Addr, value: Value, stamp: Stamp, a: Addr)
    requires Stamped(l) && PutOk(node, value) && a != []
    requires Leaf(Write(l, node, value, stamp).fields, a).Some?
    ensures Nearest(Write(l, node, value, stamp).stamps, a) ==
      if node <= a then Some(node) else Nearest(l.stamps, a)
  {
    var v, d := Write(l, node, value, stamp), DropSubtree(l, node);
    WriteStates(l, node, value, stamp, a);
    if node <= a {
      forall d | d in v.stamps && d <= a
        ensures d <= node
      {
        if d != node {
          DroppedBelow(l, node, d);
        }
      }
      NearestIs(v.stamps, a, node);
    } else {
      DropKeepsNearest(l, node, a);
      LeafWithout(l.fields, node, a);
      var m := Nearest(d.stamps, a).value;
      if InTheWay(d.fields, m, node) {
        ScalarIsLeaf(d.fields, m);
        LeavesApart(d.fields, m, a);
      }
      NearestIs(v.stamps, a, m);
    }
  }

  lemma ScalarIsLeaf(f: Fields, a: Addr)
    requires Lookup(f, a).Some? && Lookup(f, a).value.Scalar?
    ensures Leaf(f, a).Some?
  {
  }

  lemma WriteStamped(l: Layer, node: Addr, value: Value, stamp: Stamp)
    requires Stamped(l) && PutOk(node, value)
    ensures Stamped(Write(l, node, value, stamp))
  {
    DropStamped(l, node);
    var v, d := Write(l, node, value, stamp), DropSubtree(l, node);
    forall a | Leaf(v.fields, a).Some?
      ensures Nearest(v.stamps, a).Some?
    {
      WriteStates(l, node, value, stamp, a);
      WriteNearest(l, node, value, stamp, a);
    }
    if !(node == [] && value == EMPTY) {
      forall s | s in v.stamps
        ensures Holds(v.fields, s)
      {
        if s == node {
          var b := SomeLeaf(value);
          assert (node + b)[|node|..] == b;
          WriteStates(l, node, value, stamp, node + b);
          HoldsLeaf(v.fields, node, node + b);
        } else {
          WriteHolds(l, node, value, stamp, s);
        }
      }
    }
  }

  lemma WriteHolds(l: Layer, node: Addr, value: Value, stamp: Stamp, s: Addr)
    requires Stamped(l) && PutOk(node, value) && s != node && !(node == [] && value == EMPTY)
    requires s in Write(l, node, value, stamp).stamps
    ensures Holds(Write(l, node, value, stamp).fields, s)
  {
    var v, d := Write(l, node, value, stamp), DropSubtree(l, node);
    DroppedBelow(l, node, s);
    if s < node {
      var b := SomeLeaf(value);
      assert (node + b)[|node|..] == b;
      WriteStates(l, node, value, stamp, node + b);
      HoldsLeaf(v.fields, s, node + b);
    } else {
      var a := HeldSome(d.fields, s);
      LeafWithout(l.fields, node, a);
      WriteStates(l, node, value, stamp, a);
      HoldsLeaf(v.fields, s, a);
    }
  }

  lemma EvictNearest(l: Layer, node: Addr, v: Layer, a: Addr)
    requires Stamped(l) && Evicts(l, node, v) && Leaf(v.fields, a).Some?
    ensures Leaf(l.fields, a).Some? && Nearest(v.stamps, a) == Nearest(l.stamps, a)
  {
    var kept, d := Deeper(l, node), DropSubtree(l, node);
    var n := Nearest(l.stamps, a).value;
    if node <= a {
      var e :| e in kept && e <= a;
      assert e <= n && node <= n && n[|node|] == e[|node|];
      assert n in kept;
    } else {
      DropKeepsNearest(l, node, a);
      assert n in d.stamps;
    }
    forall m | m in v.stamps && m <= a
      ensures m <= n
    {
      assert m in l.stamps;
    }
    NearestIs(v.stamps, a, n);
  }

  lemma EvictStamped(l: Layer, node: Addr, v: Layer)
    requires Stamped(l) && Evicts(l, node, v)
    ensures Stamped(v)
  {
    var kept, d := Deeper(l, node), DropSubtree(l, node);
    forall a | Leaf(v.fields, a).Some?
      ensures Nearest(v.stamps, a).Some?
    {
      EvictNearest(l, node, v, a);
    }
    forall s | s in v.stamps
      ensures Holds(v.fields, s)
    {
      var a: Addr;
      if s in kept {
        a := HeldSome(l.fields, s);
        assert Covered(kept, a);
      } else {
        a := HeldSome(d.fields, s);
        LeafWithout(l.fields, node, a);
      }
      HoldsLeaf(v.fields, s, a);
    }
  }

  /** A put, a removal or an eviction of the layer. */
  datatype Op = Put(node: Addr, value: Value, stamp: Stamp) | Removal(node: Addr) | Eviction(node: Addr)

  ghost predicate Does(l: Layer, op: Op, v: Layer) {
    match op
    case Put(node, value, stamp) => PutOk(node, value) && v == Write(l, node, value, stamp)
    case Removal(node) => v == DropSubtree(l, node)
    case Eviction(node) => Evicts(l, node, v)
  }

  /** The layers `ls` come of one another by the operations `ops`. */
  ghost predicate Runs(ls: seq<Layer>, ops: seq<Op>) {
    && |ls| == |ops| + 1
    && (forall i | 0 <= i < |ops| :: Does(ls[i], ops[i], ls[i + 1]))
  }

  /** Over every run of puts, removals and evictions, every stamped address holds
      something and every leaf has a stamp at or above it. */
  lemma {:induction false} AlwaysStamped(ls: seq<Layer>, ops: seq<Op>, i: nat)
    requires Runs(ls, ops) && ls[0] == NO_PUTS && i < |ls|
    ensures Stamped(ls[i])
  {
    if i == 0 {
      forall a
        ensures Leaf(ls[0].fields, a).None?
      {
      }
    } else {
      AlwaysStamped(ls, ops, i - 1);
      assert Does(ls[i - 1], ops[i - 1], ls[i]);
      match ops[i - 1]
      case Put(node, value, stamp) => WriteStamped(ls[i - 1], node, value, stamp);
      case Removal(node) => DropStamped(ls[i - 1], node);
      case Eviction(node) => EvictStamped(ls[i - 1], node, ls[i]);
    }
  }

  // ---- Whose stamp it is ------------------------------------------------

  /** What an operation leaves stamped has the stamp it had, but for the address of a put,
      which has the put's own. */
  lemma StampAfter(l: Layer, op: Op, v: Layer, d: Addr)
    requires Does(l, op, v) && d in v.stamps
    ensures if op.Put? && d == op.node then v.stamps[d] == op.stamp else d in l.stamps && v.stamps[d] == l.stamps[d]
  {
    if op.Put? && d == op.node && op.node == [] && op.value == EMPTY {
      DroppedBelow(l, [], d);
    }
  }

  /** The put `ops[j]` is the last at `d` before the `i`th layer. */
  ghost predicate LastPutAt(ops: seq<Op>, i: nat, d: Addr, j: nat) {
    && j < i <= |ops| && ops[j].Put? && ops[j].node == d
    && forall k | j < k < i :: !(ops[k].Put? && ops[k].node == d)
  }

  /** Over every run, the time and the ttl of an address stamped are those of the last put
      made at it. */
  lemma {:induction false} StampIsLastPuts(ls: seq<Layer>, ops: seq<Op>, i: nat, d: Addr) returns (j: nat)
    requires Runs(ls, ops) && ls[0] == NO_PUTS && i < |ls| && d in ls[i].stamps
    ensures LastPutAt(ops, i, d, j) && ls[i].stamps[d] == ops[j].stamp
    decreases i
  {
    hide Does;
    assert i > 0;
    assert Does(ls[i - 1], ops[i - 1], ls[i - 1 + 1]);
    StampAfter(ls[i - 1], ops[i - 1], ls[i], d);
    if ops[i - 1].Put? && ops[i - 1].node == d {
      j := i - 1;
    } else {
      j := StampIsLastPuts(ls, ops, i - 1, d);
    }
  }

  /** The put `ops[j]` stated the leaf of `l` at `a`, its stamp governs the leaf with the
      time and ttl it was made with, and no later put overlaps the leaf. */
  ghost predicate IsItsPut(l: Layer, ops: seq<Op>, i: nat, a: Addr, j: nat) {
    && j < i <= |ops| && ops[j].Put? && ops[j].node <= a
    && Leaf(l.fields, a) == LeafIn(ops[j].value, a[|ops[j].node|..])
    && Nearest(l.stamps, a) == Some(ops[j].node) && l.stamps[ops[j].node] == ops[j].stamp
    && forall k | j < k < i && ops[k].Put? :: !Overlaps(ops[k].node, a)
  }

  /** One operation leaves a leaf it does not state as it was, under the same stamp. */
  lemma LeafAfter(l: Layer, op: Op, v: Layer, a: Addr)
    requires Stamped(l) && Does(l, op, v) && Leaf(v.fields, a).Some?
    ensures if op.Put? && op.node <= a then
              Leaf(v.fields, a) == LeafIn(op.value, a[|op.node|..]) && Nearest(v.stamps, a) == Some(op.node)
            else
              Leaf(v.fields, a) == Leaf(l.fields, a) && Nearest(v.stamps, a) == Nearest(l.stamps, a)
              && (op.Put? ==> !Overlaps(op.node, a))
  {
    hide Stamped, Write, DropSubtree, Evicts, Leaf;
    match op
    case Put(node, value, stamp) =>
      NoRootLeaf(v.fields, a);
      WriteStates(l, node, value, stamp, a);
      WriteNearest(l, node, value, stamp, a);
    case Removal(node) => RemovalLeaf(l, node, a);
    case Eviction(node) => EvictionLeaf(l, node, v, a);
  }

  lemma NoRootLeaf(f: Fields, a: Addr)
    ensures Leaf(f, a).Some? ==> a != []
  {
  }

  lemma RemovalLeaf(l: Layer, node: Addr, a: Addr)
    requires Leaf(DropSubtree(l, node).fields, a).Some?
    ensures Leaf(DropSubtree(l, node).fields, a) == Leaf(l.fields, a)
    ensures Nearest(DropSubtree(l, node).stamps, a) == Nearest(l.stamps, a)
  {
    LeafWithout(l.fields, node, a);
    DropKeepsNearest(l, node, a);
  }

  lemma EvictionLeaf(l: Layer, node: Addr, v: Layer, a: Addr)
    requires Stamped(l) && Evicts(l, node, v) && Leaf(v.fields, a).Some?
    ensures Leaf(v.fields, a) == Leaf(l.fields, a) && Nearest(v.stamps, a) == Nearest(l.stamps, a)
  {
    hide Stamped;
    EvictNearest(l, node, v, a);
  }

  /** Over every run, each leaf is the one its last put stated, and is governed by that
      put's own time and ttl. */
  lemma {:induction false} LeafIsItsPuts(ls: seq<Layer>, ops: seq<Op>, i: nat, a: Addr) returns (j: nat)
    requires Runs(ls, ops) && ls[0] == NO_PUTS && i < |ls| && Leaf(ls[i].fields, a).Some?
    ensures IsItsPut(ls[i], ops, i, a, j)
    decreases i
  {
    hide Does, Stamped, Leaf, LeafIn;
    NoLeaves(a);
    assert i > 0;
    assert Does(ls[i - 1], ops[i - 1], ls[i - 1 + 1]);
    AlwaysStamped(ls, ops, i - 1);
    LeafAfter(ls[i - 1], ops[i - 1], ls[i], a);
    var n := Nearest(ls[i].stamps, a);
    if ops[i - 1].Put? && ops[i - 1].node <= a {
      j := i - 1;
      StampAfter(ls[i - 1], ops[i - 1], ls[i], n.value);
    } else {
      j := LeafIsItsPuts(ls, ops, i - 1, a);
      StampAfter(ls[i - 1], ops[i - 1], ls[i], n.value);
    }
  }

  lemma NoLeaves(a: Addr)
    ensures Leaf(NO_PUTS.fields, a).None?
  {
  }

  // ---- What an eviction takes -------------------------------------------

  /** The eviction of `node` takes exactly the leaves its own stamp governs. */
  ghost predicate TakesItsOwn(l: Layer, node: Addr, v: Layer) {
    forall a {:trigger Leaf(v.fields, a)} ::
      Leaf(v.fields, a) == if Nearest(l.stamps, a) == Some(node) then None else Leaf(l.fields, a)
  }

  /** Every address stamped below `node` goes on from it with a dot. */
  predicate DottedBelow(l: Layer, node: Addr) {
    node == [] || forall d | d in l.stamps && node < d :: Bare(d[|node|])
  }

  /** Evicting a stamped address takes its own leaves and no other's, if and only
      if every address stamped below it goes on from it with a dot: `is_at_or_below`
      does not see one whose next segment is written in brackets. */
  lemma EvictTakesItsOwn(l: Layer, node: Addr, v: Layer)
    requires Stamped(l) && node in l.stamps && Evicts(l, node, v)
    ensures TakesItsOwn(l, node, v) <==> DottedBelow(l, node)
  {
    var kept := Deeper(l, node);
    if DottedBelow(l, node) {
      forall a
        ensures Leaf(v.fields, a) == if Nearest(l.stamps, a) == Some(node) then None else Leaf(l.fields, a)
      {
        if Leaf(l.fields, a).Some? && node <= a {
          var n := Nearest(l.stamps, a).value;
          assert node <= n;
          if n != node {
            assert |n| > |node| && n in kept;
          } else {
            KeptIsDeeper(l, node, a);
          }
        }
      }
    } else {
      var d :| d in l.stamps && node < d && !Bare(d[|node|]);
      var a := HeldSome(l.fields, d);
      assert Nearest(l.stamps, a).Some? && d <= Nearest(l.stamps, a).value;
      forall e | e in kept
        ensures !(e <= a)
      {
      }
      assert Leaf(v.fields, a) == None;
    }
  }

  lemma KeptIsDeeper(l: Layer, node: Addr, a: Addr)
    requires node in l.stamps && Nearest(l.stamps, a) == Some(node)
    ensures !Covered(Deeper(l, node), a)
  {
    forall e | e in Deeper(l, node)
      ensures !(e <= a)
    {
    }
  }

  /** It does not always: the put at `tools['a.b']` goes when the put at `tools`
      expires, though its own stamp is not due. */
  lemma EvictTakesAnothers(stamp: Stamp) returns (l: Layer, v: Layer)
    ensures var first := Object(map["x" := Scalar("1")]);
      l == Write(Write(NO_PUTS, ["tools"], first, stamp), ["tools", "a.b"], Scalar("2"), stamp)
    ensures Evicts(l, ["tools"], v)
    ensures Nearest(l.stamps, ["tools", "a.b"]) == Some(["tools", "a.b"])
    ensures Leaf(l.fields, ["tools", "a.b"]) == Some(Scalar("2")) && Leaf(v.fields, ["tools", "a.b"]).None?
  {
    l := TwoPuts(stamp);
    var tools, quoted := ["tools"], ["tools", "a.b"];
    assert EndsBare("a.b"[1]) && quoted[|tools|] == "a.b";
    EvictsNoneDeeper(l, tools);
    v := DropSubtree(l, tools);
    LeafWithout(l.fields, tools, quoted);
  }

  /** With no address stamped below it, an eviction drops the whole subtree. */
  lemma EvictsNoneDeeper(l: Layer, node: Addr)
    requires Deeper(l, node) == {}
    ensures Evicts(l, node, DropSubtree(l, node))
  {
    var v := DropSubtree(l, node);
    forall a
      ensures Leaf(v.fields, a) == if node <= a then None else Leaf(l.fields, a)
    {
      LeafWithout(l.fields, node, a);
    }
  }

  lemma TwoPuts(stamp: Stamp) returns (l: Layer)
    ensures l == Write(Write(NO_PUTS, ["tools"], Object(map["x" := Scalar("1")]), stamp),
                       ["tools", "a.b"], Scalar("2"), stamp)
    ensures l.stamps == map[["tools"] := stamp, ["tools", "a.b"] := stamp]
    ensures l.fields == map["tools" := Object(map["x" := Scalar("1"), "a.b" := Scalar("2")])]
  {
    var tools, quoted := ["tools"], ["tools", "a.b"];
    var first := Object(map["x" := Scalar("1")]);
    var l0 := Write(NO_PUTS, tools, first, stamp);
    assert l0 == Layer(map["tools" := first], map[tools := stamp]);
    l := Write(l0, quoted, Scalar("2"), stamp);
    assert !(quoted <= tools) && Holds(l0.fields, tools) && tools in DropSubtree(l0, quoted).stamps;
  }
}
