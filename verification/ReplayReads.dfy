/** What a replay of the persisted puts changes for a reader: the stamps a put layer is
    left with cut the maps below it, and a replay may leave other stamps than the history
    did. When two layers read the same, when an address keeps its stamp, and so when a
    replay reads as the history. */
module ReplayReads {
  import opened Prelude
  import opened Tree
  import opened Puts
  import opened TreeCuts
  import opened Merge
  import opened PersistLog

  /** A read of the layer over the tree `below`: every stamped address cuts. */
  ghost function ReadOver(below: Fields, l: Layer): Fields {
    Merged(CutTree(below, l.stamps.Keys), l.fields)
  }

  lemma ReadOverLeaf(below: Fields, l: Layer, a: Addr)
    requires Stamped(l)
    ensures Leaf(ReadOver(below, l), a) ==
      if Leaf(l.fields, a).Some? then Leaf(l.fields, a)
      else if OverlapsAny(l.stamps, a) then None
      else Leaf(below, a)
  {
    CutTreeIs(below, l.stamps.Keys);
    PutsOverLeaf(below, l, CutTree(below, l.stamps.Keys), a);
  }

  // ---- When two layers read the same ------------------------------------

  /** Each address stamped in `l` has one stamped in `m` at or above it. */
  ghost predicate StampsWithin(l: Layer, m: Layer) {
    forall d | d in l.stamps :: Covered(m.stamps.Keys, d)
  }

  lemma OverlapsToo(l: Layer, m: Layer, a: Addr)
    requires Stamped(l) && Stamped(m) && l.fields == m.fields && StampsWithin(l, m)
    requires OverlapsAny(l.stamps, a)
    ensures OverlapsAny(m.stamps, a)
  {
    var d :| d in l.stamps && Overlaps(d, a);
    var e: Addr;
    if d <= a {
      e :| e in m.stamps.Keys && e <= d;
    } else {
      var b := HeldSome(l.fields, d);
      e := Nearest(m.stamps, b).value;
    }
    assert Overlaps(e, a);
  }

  lemma SameOverlapSameRead(l: Layer, m: Layer, below: Fields)
    requires Stamped(l) && Stamped(m) && l.fields == m.fields && StampsWithin(l, m) && StampsWithin(m, l)
    ensures ReadOver(below, l) == ReadOver(below, m)
  {
    forall a
      ensures Leaf(ReadOver(below, l), a) == Leaf(ReadOver(below, m), a)
    {
      ReadOverLeaf(below, l, a);
      ReadOverLeaf(below, m, a);
      if OverlapsAny(l.stamps, a) {
        OverlapsToo(l, m, a);
      }
      if OverlapsAny(m.stamps, a) {
        OverlapsToo(m, l, a);
      }
    }
    TreeIsItsLeaves(ReadOver(below, l), ReadOver(below, m));
  }

  lemma {:induction false} FreshSeg(taken: set<Seg>) returns (x: Seg)
    ensures forall t | t in taken :: |t| < |x|
  {
    if taken == {} {
      x := "x";
    } else {
      var t :| t in taken;
      var y := FreshSeg(taken - {t});
      x := if |t| < |y| then y else t + "x";
    }
  }

  /** An address stamped in `l` with none of `m` at or above it hides a leaf of some tree
      below that `m` shows. */
  lemma HidesWhatTheOtherShows(l: Layer, m: Layer, d: Addr) returns (below: Fields, a: Addr)
    requires Stamped(l) && Stamped(m) && l.fields == m.fields
    requires d in l.stamps && !Covered(m.stamps.Keys, d)
    ensures Leaf(ReadOver(below, l), a).None? && Leaf(ReadOver(below, m), a).Some?
  {
    var x := FreshSeg(set e | e in m.stamps && |d| < |e| :: e[|d|]);
    a := d + [x];
    below := Insert(map[], a, Scalar(""));
    forall e | e in m.stamps
      ensures !Overlaps(e, a)
    {
      if |d| < |e| {
        assert e[|d|] in (set e | e in m.stamps && |d| < |e| :: e[|d|]);
        assert a[|d|] == x != e[|d|];
      } else {
        assert e <= a ==> e <= d;
        assert e in m.stamps.Keys;
      }
    }
    NearestNone(m.stamps, a);
    LeafInsert(map[], a, Scalar(""), a);
    assert a[|a|..] == [] && Overlaps(d, a);
    ReadOverLeaf(below, l, a);
    ReadOverLeaf(below, m, a);
  }

  /** Two layers of the same puts read the same over every tree below if and only if each
      address stamped in either has a stamp of the other at or above it. */
  lemma ReadsAgreeExactly(l: Layer, m: Layer)
    requires Stamped(l) && Stamped(m) && l.fields == m.fields
    ensures (forall below :: ReadOver(below, l) == ReadOver(below, m)) <==> StampsWithin(l, m) && StampsWithin(m, l)
  {
    if d :| d in l.stamps && !Covered(m.stamps.Keys, d) {
      var below, a := HidesWhatTheOtherShows(l, m, d);
      assert ReadOver(below, l) != ReadOver(below, m);
    } else if d :| d in m.stamps && !Covered(l.stamps.Keys, d) {
      var below, a := HidesWhatTheOtherShows(m, l, d);
      assert ReadOver(below, l) != ReadOver(below, m);
    } else {
      forall below
        ensures ReadOver(below, l) == ReadOver(below, m)
      {
        SameOverlapSameRead(l, m, below);
      }
    }
  }

  // ---- When an address keeps its stamp ----------------------------------

  /** A leaf that still stands at `d`, or below it, while what stands at `node` is gone. */
  predicate StandsBeside(f: Fields, d: Addr, node: Addr, b: Addr) {
    && d <= b && !(node <= b) && Leaf(f, b).Some?
    && (b == d ==> Leaf(f, b).value.Object?)
  }

  /** A put at `node` leaves the stamp of `d`: it is not at `d` or above it, and if it is
      below, something else still stands at `d` that is no scalar in its way. */
  ghost predicate Outlives(f: Fields, d: Addr, node: Addr) {
    !(node <= d) && (d < node ==> exists b :: StandsBeside(f, d, node, b))
  }

  lemma OutlivesBelow(l: Layer, node: Addr, d: Addr)
    requires d in l.stamps && d < node
    ensures Outlives(l.fields, d, node) <==>
      d in DropSubtree(l, node).stamps && !InTheWay(DropSubtree(l, node).fields, d, node)
  {
    var v := DropSubtree(l, node);
    LeafWithout(l.fields, node, d);
    if b :| StandsBeside(l.fields, d, node, b) {
      LeafWithout(l.fields, node, b);
      HoldsLeaf(v.fields, d, b);
      if InTheWay(v.fields, d, node) {
        ScalarIsLeaf(v.fields, d);
        LeavesApart(v.fields, d, b);
      }
    }
    if d in v.stamps && !InTheWay(v.fields, d, node) {
      var b := HeldSome(v.fields, d);
      LeafWithout(l.fields, node, b);
      assert StandsBeside(l.fields, d, node, b);
    }
  }

  lemma OutlivesBeside(l: Layer, node: Addr, d: Addr)
    requires Stamped(l) && d in l.stamps && !Overlaps(d, node)
    ensures d in DropSubtree(l, node).stamps
  {
    var b := HeldSome(l.fields, d);
    LeafWithout(l.fields, node, b);
    HoldsLeaf(DropSubtree(l, node).fields, d, b);
  }

  /** The stamps a put leaves. */
  lemma WriteStampAt(l: Layer, node: Addr, value: Value, s: Stamp, d: Addr)
    requires Stamped(l) && PutOk(node, value)
    ensures d in Write(l, node, value, s).stamps <==>
      if d == node then !(node == [] && value == EMPTY) else d in l.stamps && Outlives(l.fields, d, node)
  {
    if d in l.stamps && d < node {
      OutlivesBelow(l, node, d);
    } else if d in l.stamps && !Overlaps(d, node) {
      OutlivesBeside(l, node, d);
    } else if d in DropSubtree(l, node).stamps {
      DroppedBelow(l, node, d);
    }
  }

  function NodeOf(p: Landed): Addr {
    p.entry.key[1..]
  }

  /** The `i`th put stamped `d`, and every later put of the place has left the stamp. */
  ghost predicate KeptFrom(puts: seq<Landed>, at: Place, d: Addr, i: nat) {
    && i < |puts| && PlaceOf(puts[i].entry) == at && NodeOf(puts[i]) == d
    && !(d == [] && puts[i].entry.data == EMPTY)
    && forall j {:trigger puts[j]} | i < j < |puts| && PlaceOf(puts[j].entry) == at ::
         Outlives(LayerAt(puts[..j], at).fields, d, NodeOf(puts[j]))
  }

  ghost predicate Keeps(puts: seq<Landed>, at: Place, d: Addr) {
    exists i :: KeptFrom(puts, at, d, i)
  }

  lemma KeptLast(puts: seq<Landed>, last: Landed, at: Place, d: Addr)
    ensures KeptFrom(puts + [last], at, d, |puts|) <==>
      PlaceOf(last.entry) == at && NodeOf(last) == d && !(d == [] && last.entry.data == EMPTY)
  {
    hide Outlives, LayerAt;
  }

  lemma KeptMore(puts: seq<Landed>, last: Landed, at: Place, d: Addr)
    ensures Keeps(puts + [last], at, d) <==>
      if PlaceOf(last.entry) != at then Keeps(puts, at, d)
      else if NodeOf(last) == d then !(d == [] && last.entry.data == EMPTY)
      else Keeps(puts, at, d) && Outlives(LayerAt(puts, at).fields, d, NodeOf(last))
  {
    var all := puts + [last];
    KeptLast(puts, last, at, d);
    OwnPutEnds(LayerAt(puts, at).fields, d);
    if Keeps(all, at, d) {
      var i: nat :| KeptFrom(all, at, d, i);
      if i < |puts| {
        KeptBefore(puts, last, at, d, i);
        hide KeptFrom, Outlives, LayerAt;
        assert Keeps(puts, at, d);
      }
    }
    hide KeptFrom, Outlives, LayerAt;
    if Keeps(puts, at, d) && (PlaceOf(last.entry) == at ==> Outlives(LayerAt(puts, at).fields, d, NodeOf(last))) {
      var i: nat :| KeptFrom(puts, at, d, i);
      KeptOn(puts, last, at, d, i);
    }
  }

  lemma OwnPutEnds(f: Fields, d: Addr)
    ensures !Outlives(f, d, d)
  {
  }

  lemma KeptOn(puts: seq<Landed>, last: Landed, at: Place, d: Addr, i: nat)
    requires KeptFrom(puts, at, d, i)
    requires PlaceOf(last.entry) == at ==> Outlives(LayerAt(puts, at).fields, d, NodeOf(last))
    ensures KeptFrom(puts + [last], at, d, i)
  {
    hide Outlives, LayerAt;
    var all := puts + [last];
    forall j | i < j < |all| && PlaceOf(all[j].entry) == at
      ensures Outlives(LayerAt(all[..j], at).fields, d, NodeOf(all[j]))
    {
      assert all[..j] == puts[..j];
      if j < |puts| {
        assert all[j] == puts[j];
      } else {
        assert puts[..j] == puts;
      }
    }
  }

  lemma KeptBefore(puts: seq<Landed>, last: Landed, at: Place, d: Addr, i: nat)
    requires KeptFrom(puts + [last], at, d, i) && i < |puts|
    ensures KeptFrom(puts, at, d, i)
    ensures PlaceOf(last.entry) == at ==> Outlives(LayerAt(puts, at).fields, d, NodeOf(last))
  {
    hide Outlives, LayerAt;
    var all := puts + [last];
    forall j | i < j < |puts| && PlaceOf(puts[j].entry) == at
      ensures Outlives(LayerAt(puts[..j], at).fields, d, NodeOf(puts[j]))
    {
      assert all[..j] == puts[..j] && all[j] == puts[j];
    }
    assert all[|puts|] == last && all[..|puts|] == puts;
  }

  /** In terms of the puts: an address is stamped if and only if some put was at it, none
      after it at or above it, and at every later put below it something else still stood
      there and was no scalar in the way. */
  lemma {:induction false} StampedIsKept(puts: seq<Landed>, at: Place, d: Addr)
    ensures d in LayerAt(puts, at).stamps <==> Keeps(puts, at, d)
  {
    hide Outlives, Write, Keeps, LayerAt;
    if puts == [] {
      NothingKept(at, d);
    } else {
      var front, last := puts[..|puts| - 1], puts[|puts| - 1];
      StampedIsKept(front, at, d);
      assert puts == front + [last];
      KeptMore(front, last, at, d);
      LayerMore(front, last, at);
      LayerStamped(front, at);
      if PlaceOf(last.entry) == at {
        WriteStampAt(LayerAt(front, at), NodeOf(last), last.entry.data, last.stamp, d);
      }
    }
  }

  lemma NothingKept(at: Place, d: Addr)
    ensures d !in LayerAt([], at).stamps && !Keeps([], at, d)
  {
  }

  lemma LayerMore(front: seq<Landed>, last: Landed, at: Place)
    ensures LayerAt(front + [last], at) ==
      if PlaceOf(last.entry) == at then Write(LayerAt(front, at), NodeOf(last), last.entry.data, last.stamp)
      else LayerAt(front, at)
  {
    assert (front + [last])[..|front|] == front;
  }

  /** The `i`th put is the last of the place at `d`. */
  ghost predicate LastAt(puts: seq<Landed>, at: Place, d: Addr, i: nat) {
    && i < |puts| && PlaceOf(puts[i].entry) == at && NodeOf(puts[i]) == d
    && forall j | i < j < |puts| && PlaceOf(puts[j].entry) == at :: NodeOf(puts[j]) != d
  }

  /** And with which time and ttl: those of the last put at the address. */
  lemma {:induction false} StampIsStated(puts: seq<Landed>, at: Place, d: Addr) returns (i: nat)
    requires d in LayerAt(puts, at).stamps
    ensures LastAt(puts, at, d, i) && LayerAt(puts, at).stamps[d] == puts[i].stamp
  {
    hide LayerAt, Write;
    NothingKept(at, d);
    assert puts != [];
    var front, last := puts[..|puts| - 1], puts[|puts| - 1];
    assert puts == front + [last];
    LayerMore(front, last, at);
    if PlaceOf(last.entry) == at {
      StampAfter(LayerAt(front, at), Op.Put(NodeOf(last), last.entry.data, last.stamp), LayerAt(puts, at), d);
    }
    if PlaceOf(last.entry) == at && NodeOf(last) == d {
      i := |puts| - 1;
    } else {
      i := StampIsStated(front, at, d);
    }
  }

  /** The `i`th put stated the leaf at `b`, and no later one of the place overlaps it. */
  ghost predicate StatedBy(puts: seq<Landed>, at: Place, b: Addr, i: nat, v: Value) {
    && i < |puts| && PlaceOf(puts[i].entry) == at && NodeOf(puts[i]) <= b
    && LeafIn(puts[i].entry.data, b[|NodeOf(puts[i])|..]) == Some(v)
    && forall j | i < j < |puts| && PlaceOf(puts[j].entry) == at :: !Overlaps(NodeOf(puts[j]), b)
  }

  /** And what stands anywhere, in terms of the puts. */
  lemma {:induction false} LeafIsStated(puts: seq<Landed>, at: Place, b: Addr, v: Value)
    requires b != []
    ensures Leaf(LayerAt(puts, at).fields, b) == Some(v) <==> exists i :: StatedBy(puts, at, b, i, v)
  {
    hide Write, LayerAt;
    if puts == [] {
      NothingKept(at, b);
      NoLayer(at, b);
    } else {
      var front, last := puts[..|puts| - 1], puts[|puts| - 1];
      LeafIsStated(front, at, b, v);
      assert puts == front + [last];
      LayerMore(front, last, at);
      StatedMore(front, last, at, b, v);
      if PlaceOf(last.entry) == at {
        WriteStates(LayerAt(front, at), NodeOf(last), last.entry.data, last.stamp, b);
      }
    }
  }

  lemma NoLayer(at: Place, b: Addr)
    ensures Leaf(LayerAt([], at).fields, b).None?
  {
  }

  lemma StatedMore(front: seq<Landed>, last: Landed, at: Place, b: Addr, v: Value)
    ensures (exists i :: StatedBy(front + [last], at, b, i, v)) <==>
      if PlaceOf(last.entry) == at && NodeOf(last) <= b then LeafIn(last.entry.data, b[|NodeOf(last)|..]) == Some(v)
      else if PlaceOf(last.entry) == at && b < NodeOf(last) then false
      else exists i :: StatedBy(front, at, b, i, v)
  {
    hide LeafIn;
    var all := front + [last];
    if i: nat :| StatedBy(all, at, b, i, v) {
      if i < |front| {
        assert all[|front|] == last && forall j | 0 <= j < |front| :: all[j] == front[j];
        assert StatedBy(front, at, b, i, v);
      }
    }
    if i: nat :| StatedBy(front, at, b, i, v) && !(PlaceOf(last.entry) == at && Overlaps(NodeOf(last), b)) {
      assert all[i] == front[i];
      assert StatedBy(all, at, b, i, v);
    }
    if PlaceOf(last.entry) == at && NodeOf(last) <= b && LeafIn(last.entry.data, b[|NodeOf(last)|..]) == Some(v) {
      assert StatedBy(all, at, b, |front|, v);
    }
  }

  // ---- What a replay changes --------------------------------------------

  /** Each address `puts` keep stamped has one that `other` keep at or above it. */
  ghost predicate KeptWithin(puts: seq<Landed>, other: seq<Landed>, at: Place) {
    forall d {:trigger Keeps(puts, at, d)} | Keeps(puts, at, d) :: exists e :: e <= d && Keeps(other, at, e)
  }

  lemma KeptIsStamped(puts: seq<Landed>, other: seq<Landed>, at: Place)
    ensures KeptWithin(puts, other, at) <==> StampsWithin(LayerAt(puts, at), LayerAt(other, at))
  {
    hide Keeps, LayerAt;
    forall d
      ensures d in LayerAt(puts, at).stamps <==> Keeps(puts, at, d)
      ensures d in LayerAt(other, at).stamps <==> Keeps(other, at, d)
    {
      StampedIsKept(puts, at, d);
      StampedIsKept(other, at, d);
    }
    var l, m := LayerAt(puts, at), LayerAt(other, at);
    if KeptWithin(puts, other, at) {
      forall d | d in l.stamps
        ensures Covered(m.stamps.Keys, d)
      {
        assert Keeps(puts, at, d);
        var e :| e <= d && Keeps(other, at, e);
        assert e in m.stamps.Keys;
      }
    }
    if StampsWithin(l, m) {
      forall d | Keeps(puts, at, d)
        ensures exists e :: e <= d && Keeps(other, at, e)
      {
        assert d in l.stamps && Covered(m.stamps.Keys, d);
        var e :| e in m.stamps.Keys && e <= d;
        assert Keeps(other, at, e);
      }
    }
  }

  /** Of every history of persisted puts and its replay: over every tree below the two
      read the same if and only if each address either keeps stamped has one that the
      other keeps at or above it. */
  lemma ReplayReadsExactly(history: seq<Landed>, replay: seq<Landed>, at: Place)
    requires Entries(replay) == Compacted(Entries(history))
    ensures (forall below :: ReadOver(below, LayerAt(history, at)) == ReadOver(below, LayerAt(replay, at)))
      <==> KeptWithin(history, replay, at) && KeptWithin(replay, history, at)
  {
    hide LayerAt, Compacted, Entries, KeptWithin, StampsWithin, ReadOver, Stamped;
    ReplayRebuilds(history, replay, at);
    LayerStamped(history, at);
    LayerStamped(replay, at);
    ReadsAgreeExactly(LayerAt(history, at), LayerAt(replay, at));
    KeptIsStamped(history, replay, at);
    KeptIsStamped(replay, history, at);
  }

  lemma NoneAbove(puts: seq<Landed>, at: Place)
    requires (forall i | 0 <= i < |puts| :: puts[i].entry.key[1..] != []) && ["x"] !in LayerAt(puts, at).stamps
    ensures !Covered(LayerAt(puts, at).stamps.Keys, ["x"])
  {
    hide LayerAt;
    StampedIsKept(puts, at, []);
    forall e | e in LayerAt(puts, at).stamps.Keys
      ensures !(e <= ["x"])
    {
      assert |e| == 1 ==> (e <= ["x"] ==> e == ["x"]);
    }
  }

  /** They do not always: a restart may show a leaf of a map below that was hidden. */
  lemma ReplayShowsWhatWasHidden(s: Stamp)
    returns (history: seq<Landed>, replay: seq<Landed>, below: Fields, a: Addr)
    ensures Entries(replay) == Compacted(Entries(history))
    ensures Leaf(ReadOver(below, LayerAt(history, ("p", None))), a).None?
    ensures Leaf(ReadOver(below, LayerAt(replay, ("p", None))), a).Some?
  {
    hide LayerAt, Compacted, Entries, ReadOver, Stamped, Covered;
    var at: Place := ("p", None);
    history, replay := ReplayMayLoseAStamp(s);
    ReplayRebuilds(history, replay, at);
    LayerStamped(history, at);
    LayerStamped(replay, at);
    NoneAbove(replay, at);
    below, a := HidesWhatTheOtherShows(LayerAt(history, at), LayerAt(replay, at), ["x"]);
  }

  /** And it may hide one that was shown. */
  lemma ReplayHidesWhatWasShown(s: Stamp)
    returns (history: seq<Landed>, replay: seq<Landed>, below: Fields, a: Addr)
    ensures Entries(replay) == Compacted(Entries(history))
    ensures Leaf(ReadOver(below, LayerAt(history, ("p", None))), a).Some?
    ensures Leaf(ReadOver(below, LayerAt(replay, ("p", None))), a).None?
  {
    hide LayerAt, Compacted, Entries, ReadOver, Stamped, Covered;
    var at: Place := ("p", None);
    history, replay := ReplayMayKeepAStamp(s);
    ReplayRebuilds(history, replay, at);
    LayerStamped(history, at);
    LayerStamped(replay, at);
    NoneAbove(history, at);
    below, a := HidesWhatTheOtherShows(LayerAt(replay, at), LayerAt(history, at), ["x"]);
  }
}
