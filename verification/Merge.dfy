/** Merging layers with one provenance record per leaf (src/cache.rs): what a merge
    leaves at each address, of the tree and of its records, as functions. */
module Merge {
  import opened Prelude
  import opened Tree
  import opened Puts
  import opened TreeCuts

  type Dir = Option<string>

  /** `RecordFreshness`: the map a record was read from, its label and directory, and
      the record's freshness. */
  datatype Fresh = Fresh(source: string, entry: Dir, written: nat, ttl: Option<nat>)

  type Records = map<Addr, Fresh>

  /** `MergedRead`. */
  datatype Read = Read(fields: Fields, records: Records)

  const NOTHING_READ := Read(map[], map[])

  function Get(r: Records, a: Addr): Option<Fresh> {
    if a in r then Some(r[a]) else None
  }

  // ---- The tree of a merge ----------------------------------------------

  /** What two layers give where both hold something. */
  function Stack(v: Value, w: Value): Value
    decreases w, 1
  {
    if v.Object? && w.Object? then Object(Merged(v.fields, w.fields)) else w
  }

  /** Objects on both sides are stitched together; anything else replaces. */
  function Merged(f: Fields, o: Fields): Fields
    decreases Object(o), 0
  {
    map k | k in f.Keys + o.Keys :: if k !in o then f[k] else if k !in f then o[k] else Stack(f[k], o[k])
  }

  /** The leaf of `o` at `a` lands: an empty object does not land on an object. */
  predicate Lands(f: Fields, o: Fields, a: Addr) {
    && Leaf(o, a).Some?
    && !(Leaf(o, a).value.Object? && Lookup(f, a).Some? && Lookup(f, a).value.Object?)
  }

  /** A leaf of `o` at `b` leaves no room for another at `a`. */
  predicate Shadows(o: Fields, b: Addr, a: Addr) {
    Leaf(o, b).Some? && (a < b || (b < a && Leaf(o, b).value.Scalar?))
  }

  ghost predicate Hidden(o: Fields, a: Addr) {
    exists b :: Shadows(o, b, a)
  }

  /** Hiding, one segment at a time. */
  predicate HiddenBelow(o: Fields, a: Addr)
    decreases |a|
  {
    && a != [] && a[0] in o
    && match o[a[0]]
       case Scalar(_) => |a| > 1
       case Object(m) => if |a| == 1 then m != map[] else HiddenBelow(m, a[1..])
  }

  lemma {:induction false} HiddenHead(o: Fields, a: Addr)
    requires a != []
    ensures Hidden(o, a) <==> HiddenBelow(o, a)
    decreases |a|
  {
    if HiddenBelow(o, a) {
      var b := ShadowOf(o, a);
    }
    if Hidden(o, a) {
      var b :| Shadows(o, b, a);
      ShadowBelow(o, b, a);
    }
  }

  lemma {:induction false} ShadowOf(o: Fields, a: Addr) returns (b: Addr)
    requires HiddenBelow(o, a)
    ensures Shadows(o, b, a)
    decreases |a|
  {
    var v := o[a[0]];
    if v.Scalar? {
      b := [a[0]];
    } else if |a| == 1 {
      var k :| k in v.fields;
      var c := HeldLeaf(v.fields, [k]);
      b := a + c;
      assert b[1..] == c && a < b;
      LeafHead(o, b);
    } else {
      var c := ShadowOf(v.fields, a[1..]);
      b := [a[0]] + c;
      assert b[1..] == c && a == [a[0]] + a[1..];
      LeafHead(o, b);
    }
  }

  lemma {:induction false} ShadowBelow(o: Fields, b: Addr, a: Addr)
    requires a != [] && Shadows(o, b, a)
    ensures HiddenBelow(o, a)
    decreases |a|
  {
    LeafHead(o, b);
    if |b| > 1 && |a| > 1 {
      assert a < b ==> a[1..] < b[1..];
      assert b < a ==> b[1..] < a[1..];
      ShadowBelow(o[a[0]].fields, b[1..], a[1..]);
    }
  }

  lemma MergedEmpty(f: Fields, o: Fields)
    ensures Merged(f, o) == map[] <==> f == map[] && o == map[]
    ensures o == map[] ==> Merged(f, o) == f
  {
    if f != map[] {
      var k :| k in f;
      assert k in Merged(f, o);
    }
    if o != map[] {
      var k :| k in o;
      assert k in Merged(f, o);
    }
  }

  /** The leaf at `a` of the merge: the overlay's where it lands, and the lower
      layer's where no leaf of the overlay shadows it. */
  lemma {:induction false} MergedLeaf(f: Fields, o: Fields, a: Addr)
    ensures Leaf(Merged(f, o), a) ==
      if Lands(f, o, a) then Leaf(o, a) else if Hidden(o, a) then None else Leaf(f, a)
    decreases |a|
  {
    if a != [] {
      HiddenHead(o, a);
      LeafHead(f, a);
      LeafHead(o, a);
      LeafHead(Merged(f, o), a);
      if a[0] in f && a[0] in o && f[a[0]].Object? && o[a[0]].Object? {
        var m, n := f[a[0]].fields, o[a[0]].fields;
        MergedEmpty(m, n);
        if |a| > 1 {
          MergedLeaf(m, n, a[1..]);
          HiddenHead(n, a[1..]);
        }
      }
    }
  }

  // ---- The records of a merge -------------------------------------------

  /** Where a merge takes the record of a landed leaf from: one map's freshness
      (`note_records`), or the layer's own records (`copy_records`). */
  datatype Origin = Whole(note: Fresh) | Theirs(records: Records)

  function Mark(from: Origin, a: Addr): Option<Fresh> {
    match from
    case Whole(note) => Some(note)
    case Theirs(records) => Get(records, a)
  }

  /** The record left at `a`, where `before` was and `mark` is the overlay's. */
  function After(f: Fields, o: Fields, a: Addr, before: Option<Fresh>, mark: Option<Fresh>): Option<Fresh>
    decreases |a|
  {
    if a == [] || a[0] !in o then before
    else if a[0] in f && f[a[0]].Object? && o[a[0]].Object? then
      if |a| > 1 then After(f[a[0]].fields, o[a[0]].fields, a[1..], before, mark)
      else if o[a[0]].fields != map[] then None
      else before
    else if LeafIn(o[a[0]], a[1..]).Some? && mark.Some? then mark
    else if a[0] in f then None
    else before
  }

  /** Where the record of `f` at `a` is there just when a leaf is, the record of the
      merge is too: the overlay's if its leaf landed, and else what it was. */
  lemma {:induction false} AfterIs(f: Fields, o: Fields, a: Addr, before: Option<Fresh>, mark: Option<Fresh>)
    requires before.Some? <==> Leaf(f, a).Some?
    requires Leaf(o, a).Some? ==> mark.Some?
    ensures After(f, o, a, before, mark) ==
      if Lands(f, o, a) then mark else if Leaf(Merged(f, o), a).Some? then before else None
    decreases |a|
  {
    if a != [] {
      LeafHead(f, a);
      LeafHead(o, a);
      LeafHead(Merged(f, o), a);
      if a[0] in f && a[0] in o && f[a[0]].Object? && o[a[0]].Object? {
        MergedEmpty(f[a[0]].fields, o[a[0]].fields);
        if |a| > 1 {
          AfterIs(f[a[0]].fields, o[a[0]].fields, a[1..], before, mark);
        }
      }
    }
  }

  /** The record addresses are precisely the leaf addresses. */
  ghost predicate Exact(r: Read) {
    forall a {:trigger Get(r.records, a)} {:trigger Leaf(r.fields, a)} :: Get(r.records, a).Some? <==> Leaf(r.fields, a).Some?
  }

  /** Every leaf has a record, whatever other records there are. */
  ghost predicate Recorded(r: Read) {
    forall a {:trigger Leaf(r.fields, a)} | Leaf(r.fields, a).Some? :: Get(r.records, a).Some?
  }

  /** A map that a read is made of: its tree, and the record it has for each address. */
  datatype Known = Known(fields: Fields, says: Addr -> Fresh)

  /** The map of every label and directory. */
  type Maps = map<(string, Dir), Known>

  /** The map a record names holds that very leaf, and the record is the one that map has
      for it, with its time and its ttl. */
  predicate Names(maps: Maps, note: Fresh, a: Addr, v: Option<Value>) {
    && (note.source, note.entry) in maps
    && Leaf(maps[(note.source, note.entry)].fields, a) == v && maps[(note.source, note.entry)].says(a) == note
  }

  ghost predicate Honest(maps: Maps, r: Read) {
    forall a {:trigger Get(r.records, a)} | Get(r.records, a).Some? :: Names(maps, Get(r.records, a).value, a, Leaf(r.fields, a))
  }

  /** `v` is `r` with `o` merged over it, its leaves marked as `from` says. */
  ghost predicate MergedAs(r: Read, o: Fields, from: Origin, v: Read) {
    && v.fields == Merged(r.fields, o)
    && forall a {:trigger Get(v.records, a)} ::
         Get(v.records, a) == After(r.fields, o, a, Get(r.records, a), Mark(from, a))
  }

  /** The leaves of `o` are marked, with maps that hold them. */
  ghost predicate Marks(maps: Maps, o: Fields, from: Origin) {
    forall a {:trigger Leaf(o, a)} | Leaf(o, a).Some? ::
      Mark(from, a).Some? && Names(maps, Mark(from, a).value, a, Leaf(o, a))
  }

  lemma MergeKeepsAt(maps: Maps, r: Read, o: Fields, from: Origin, v: Read, a: Addr)
    requires Exact(r) && Honest(maps, r) && MergedAs(r, o, from, v) && Marks(maps, o, from)
    ensures Get(v.records, a).Some? <==> Leaf(v.fields, a).Some?
    ensures Get(v.records, a).Some? ==> Names(maps, Get(v.records, a).value, a, Leaf(v.fields, a))
  {
    MergedLeaf(r.fields, o, a);
    AfterIs(r.fields, o, a, Get(r.records, a), Mark(from, a));
    LandsIsNotHidden(o, a);
  }

  lemma LandsIsNotHidden(o: Fields, a: Addr)
    ensures Leaf(o, a).Some? ==> !Hidden(o, a)
  {
    if Leaf(o, a).Some? && Hidden(o, a) {
      var b :| Shadows(o, b, a);
      if a < b {
        LeavesApart(o, a, b);
      } else {
        LeavesApart(o, b, a);
      }
    }
  }

  /** A merge keeps provenance exact and honest, whatever clashes. */
  lemma MergeKeeps(maps: Maps, r: Read, o: Fields, from: Origin, v: Read)
    requires Exact(r) && Honest(maps, r) && MergedAs(r, o, from, v) && Marks(maps, o, from)
    ensures Exact(v) && Honest(maps, v)
  {
    forall a
      ensures Get(v.records, a).Some? <==> Leaf(v.fields, a).Some?
      ensures Get(v.records, a).Some? ==> Names(maps, Get(v.records, a).value, a, Leaf(v.fields, a))
    {
      MergeKeepsAt(maps, r, o, from, v, a);
    }
  }

  // ---- Puts over the layers below ---------------------------------------

  /** The put address at or above or below `a`, if any. */
  ghost predicate OverlapsAny(stamps: map<Addr, Stamp>, a: Addr) {
    exists d :: d in stamps && Overlaps(d, a)
  }

  /** The leaves of the puts laid over a cut tree are the put map's, and the leaves
      below whose address overlaps no put address, however the trees clash. */
  lemma PutsOverLeaf(below: Fields, l: Layer, cut: Fields, a: Addr)
    requires Stamped(l) && IsCut(below, l.stamps.Keys, cut)
    ensures Leaf(Merged(cut, l.fields), a) ==
      if Leaf(l.fields, a).Some? then Leaf(l.fields, a)
      else if OverlapsAny(l.stamps, a) then None
      else Leaf(below, a)
  {
    MergedLeaf(cut, l.fields, a);
    if Leaf(l.fields, a).Some? {
      CutUnder(below, l, cut, a);
    } else if OverlapsAny(l.stamps, a) {
      var d :| d in l.stamps && Overlaps(d, a);
      if d <= a {
        assert Covered(l.stamps.Keys, a);
      } else {
        var b := HeldSome(l.fields, d);
        assert Shadows(l.fields, b, a);
      }
    } else {
      forall b | Leaf(l.fields, b).Some?
        ensures !Shadows(l.fields, b, a)
      {
        var n := Nearest(l.stamps, b).value;
        assert !Overlaps(n, a);
      }
      forall d | d in l.stamps.Keys
        ensures !(d <= a)
      {
        assert !Overlaps(d, a);
      }
    }
  }

  /** Nothing stands at a governed leaf once the tree is cut. */
  lemma CutUnder(below: Fields, l: Layer, cut: Fields, a: Addr)
    requires IsCut(below, l.stamps.Keys, cut) && Nearest(l.stamps, a).Some? && a != []
    ensures Lookup(cut, a).None?
  {
    var n := Nearest(l.stamps, a).value;
    assert n in l.stamps.Keys;
    forall b | a <= b
      ensures Leaf(cut, b).None?
    {
      assert Covered(l.stamps.Keys, b);
    }
    if Lookup(cut, a).Some? {
      var b := HeldLeaf(cut, a);
    }
  }
}
