/** `read_merged` of src/cache.rs as it runs: a chain's entries met farthest first,
    each merged into the answer, with its tree and its provenance. */
module ReadMerged {
  import opened Prelude
  import opened Tree
  import opened Puts
  import opened TreeCuts
  import opened Merge
  import opened MergeRead
  import opened PutNotes
  import opened ChainRead
  import opened ChainRule

  /** The record addresses are the leaf addresses, and each record names a map that
      holds that very leaf. */
  ghost predicate Sound(maps: Maps, r: Read) {
    Exact(r) && Honest(maps, r)
  }

  /** `maps` has the map, and the one record it has for all its leaves. */
  ghost predicate Held(maps: Maps, c: Contribution) {
    && (c.note.source, c.note.entry) in maps && maps[(c.note.source, c.note.entry)].fields == c.fields
    && forall a {:trigger Leaf(c.fields, a)} | Leaf(c.fields, a).Some? :: maps[(c.note.source, c.note.entry)].says(a) == c.note
  }

  /** `maps` has the memo map: for the leaves of each memo, its own time and ttl. */
  ghost predicate MemosHeld(maps: Maps, memo: Fields, memos: seq<(Addr, Stamp)>, dir: Dir) {
    && (MEMO, dir) in maps && maps[(MEMO, dir)].fields == memo
    && forall m, a | m in memos && m.0 <= a && Leaf(memo, a).Some? ::
         maps[(MEMO, dir)].says(a) == Fresh(MEMO, dir, m.1.written, m.1.ttl)
  }

  lemma MemoHeld(maps: Maps, memo: Fields, memos: seq<(Addr, Stamp)>, dir: Dir, m: (Addr, Stamp), t: Addr)
    requires MemosHeld(maps, memo, memos, dir) && m in memos && m.0 != [] && Lookup(memo, m.0).Some?
    ensures m.0 <= t && LeafIn(Lookup(memo, m.0).value, t[|m.0|..]).Some? ==>
      maps[(MEMO, dir)].says(t) == Fresh(MEMO, dir, m.1.written, m.1.ttl)
  {
    LeafAcross(memo, m.0, t);
  }

  ghost predicate LinesHeld(maps: Maps, lines: Lines) {
    match lines
    case Native(cs) => forall c | c in cs :: Held(maps, c)
    case Rendered(r) => Exact(r) && Honest(maps, r)
    case Missing => true
  }

  /** The maps of an entry are the ones `maps` gives under their labels. */
  ghost predicate EntryHeld(maps: Maps, e: Entry) {
    && (e.lines.Some? ==> LinesHeld(maps, e.lines.value))
    && (forall c | c in e.seeds :: Held(maps, c))
    && (e.memo.Some? ==> MemosHeld(maps, e.memo.value, e.memos, e.dir))
    && (forall m | m in e.memos :: m.0 != [])
    && (e.put.Some? ==> PutKnown(maps, Layer(e.put.value, e.stamps), e.dir, Fresh(PUT, e.dir, e.putAt, None)))
  }

  lemma WholeMarks(maps: Maps, c: Contribution)
    requires Held(maps, c)
    ensures Marks(maps, c.fields, Whole(c.note))
  {
  }

  /** A layer whose leaves are all recorded, and honestly, marks them; records it may
      have elsewhere do not come along. */
  lemma TheirsMarks(maps: Maps, r: Read)
    requires Recorded(r) && Honest(maps, r)
    ensures Marks(maps, r.fields, Theirs(r.records))
  {
    forall a | Leaf(r.fields, a).Some?
      ensures Mark(Theirs(r.records), a).Some? && Names(maps, Mark(Theirs(r.records), a).value, a, Leaf(r.fields, a))
    {
      assert Get(r.records, a).Some?;
    }
  }

  lemma ExactIsRecorded(r: Read)
    requires Exact(r)
    ensures Recorded(r)
  {
  }

  lemma NothingReadKeeps(maps: Maps)
    ensures Sound(maps, NOTHING_READ)
  {
    forall a
      ensures Get(NOTHING_READ.records, a).None? && Leaf(NOTHING_READ.fields, a).None?
    {
    }
  }

  /** The maps of `cs` that hold anything, in order. */
  method Lay(r: Read, cs: seq<Contribution>, ghost maps: Maps) returns (v: Read, any: bool)
    requires Sound(maps, r) && forall c | c in cs :: Held(maps, c)
    ensures Sound(maps, v) && v.fields == Laid(r.fields, cs)
    ensures any <==> exists i :: 0 <= i < |cs| && cs[i].fields != map[]
  {
    hide Exact, Honest, MergedAs, Marks, Merged;
    v, any := r, false;
    for i := 0 to |cs|
      invariant Sound(maps, v) && v.fields == Laid(r.fields, cs[..i])
      invariant any <==> exists j :: 0 <= j < i && cs[j].fields != map[]
    {
      assert cs[..i + 1][..i] == cs[..i] && cs[i] in cs;
      if cs[i].fields != map[] {
        v := LayOne(v, cs[i], maps);
        any := true;
      } else {
        MergedEmpty(v.fields, cs[i].fields);
      }
    }
    assert cs[..|cs|] == cs;
  }

  method LayOne(r: Read, c: Contribution, ghost maps: Maps) returns (v: Read)
    requires Sound(maps, r) && Held(maps, c)
    ensures Sound(maps, v) && v.fields == Merged(r.fields, c.fields)
  {
    hide Exact, Honest, Marks, Merged;
    v := MergeOver(r, c.fields, Whole(c.note));
    WholeMarks(maps, c);
    MergeKeeps(maps, r, c.fields, Whole(c.note), v);
  }

  /** `merge_provider_records`. */
  method MergeLines(r: Read, lines: Lines, ghost maps: Maps) returns (v: Read, hit: bool)
    requires Sound(maps, r) && LinesHeld(maps, lines)
    ensures Sound(maps, v) && v.fields == LinesOver(r.fields, lines)
    ensures hit == LinesHit(lines)
  {
    hide Exact, Honest, Marks, Merged;
    match lines
    case Native(cs) =>
      var any;
      v, any := Lay(r, cs, maps);
      hit := cs != [];
    case Rendered(read) =>
      v := MergeOver(r, read.fields, Theirs(read.records));
      hit := true;
      ExactIsRecorded(read);
      TheirsMarks(maps, read);
      MergeKeeps(maps, r, read.fields, Theirs(read.records), v);
    case Missing =>
      v, hit := r, false;
  }

  /** `merge_puts`: every put address cuts the tree, the put map lands, and the records
      the stamps give are noted, under whatever texts. */
  method MergePuts(r: Read, l: Layer, dir: Dir, at: nat)
    returns (v: Read, odd: map<string, Fresh>, ghost cut: Read, ghost over: Read)
    ensures PutsStacked(r, l, dir, Fresh(PUT, dir, at, None), cut, over, v, odd)
    ensures v.fields == Merged(CutTree(r.fields, l.stamps.Keys), l.fields)
    ensures l.stamps == map[] ==> odd == map[]
  {
    hide CutRead, MergedAs, KeysNoted, Merged, Without;
    var todo, g := l.stamps.Keys, r;
    NothingCut(r);
    assert l.stamps.Keys - todo == {};
    while todo != {}
      invariant todo <= l.stamps.Keys && CutRead(r, l.stamps.Keys - todo, g)
      decreases |todo|
    {
      var d :| d in todo;
      CutReadOne(r, l.stamps.Keys - todo, g, d);
      assert l.stamps.Keys - todo + {d} == l.stamps.Keys - (todo - {d});
      g := Read(Without(g.fields, d), Forgotten(g.records, d));
      todo := todo - {d};
    }
    assert l.stamps.Keys - todo == l.stamps.Keys;
    cut := g;
    CutReadTree(r, l.stamps.Keys, cut);
    v := MergeOver(g, l.fields, Whole(Fresh(PUT, dir, at, None)));
    MergedAsTree(g, l.fields, Whole(Fresh(PUT, dir, at, None)), v);
    over := v;
    var noted := NoteKeys(Notes(v.records, map[]), l.stamps, dir, None, l.fields);
    v, odd := Read(v.fields, noted.records), noted.odd;
    assert AllNotes(v, odd) == noted;
  }

  lemma NothingCut(r: Read)
    ensures CutRead(r, {}, r)
  {
  }

  lemma CutReadTree(r: Read, at: set<Addr>, g: Read)
    requires CutRead(r, at, g)
    ensures g.fields == CutTree(r.fields, at)
  {
    CutIsOne(r.fields, at, g.fields);
  }

  lemma MergedAsTree(r: Read, o: Fields, from: Origin, v: Read)
    requires MergedAs(r, o, from, v)
    ensures v.fields == Merged(r.fields, o)
  {
  }

  /** One memo of `merge_memos`. */
  method LayMemo(r: Read, a: Addr, value: Value, note: Fresh) returns (v: Read)
    requires a != []
    ensures MemoLaid(r, a, value, note, v)
  {
    var s := Forgotten(r.records, a);
    var up := a;
    while |up| > 1
      invariant up <= a && up != []
      invariant forall t {:trigger Get(s, t)} ::
        Get(s, t) == if a <= t || (t < a && |t| >= |up|) then None else Get(r.records, t)
      decreases |up|
    {
      var parent := up[..|up| - 1];
      ghost var before := s;
      s := s - {parent};
      forall t
        ensures Get(s, t) == if a <= t || (t < a && |t| >= |parent|) then None else Get(r.records, t)
      {
        assert t < a && |t| == |parent| ==> t == a[..|t|] == parent;
        assert Get(s, t) == if t == parent then None else Get(before, t);
      }
      up := parent;
    }
    var u := NoteRecords(s, a, value, Whole(note));
    v := Read(Insert(r.fields, a, value), u);
  }

  /** `merge_memos`: the memos that have a value, each at its own address. */
  method LayMemos(r: Read, e: Entry, ghost maps: Maps) returns (v: Read, any: bool)
    requires Sound(maps, r) && EntryHeld(maps, e) && e.memo.Some?
    ensures Sound(maps, v) && v.fields == MemosOver(r.fields, e.memo.value, e.memos)
    ensures any <==> AnyMemo(e)
  {
    hide Exact, Honest, MemoLaid, LinesHeld, Insert, Lookup;
    v, any := r, false;
    for i := 0 to |e.memos|
      invariant Sound(maps, v) && v.fields == MemosOver(r.fields, e.memo.value, e.memos[..i])
      invariant any <==> exists j :: 0 <= j < i && Lookup(e.memo.value, e.memos[j].0).Some?
    {
      assert e.memos[..i + 1][..i] == e.memos[..i] && e.memos[i] in e.memos;
      var (a, stamp) := e.memos[i];
      match Lookup(e.memo.value, a)
      case Some(value) =>
        var note := Fresh(MEMO, e.dir, stamp.written, stamp.ttl);
        ghost var before := v;
        v := LayMemo(v, a, value, note);
        MemoLaidTree(before, a, value, note, v);
        any := true;
        forall t | a <= t && LeafIn(value, t[|a|..]).Some?
          ensures maps[(MEMO, e.dir)].says(t) == note
        {
          MemoHeld(maps, e.memo.value, e.memos, e.dir, e.memos[i], t);
        }
        MemoKeeps(maps, before, a, value, note, v);
      case None =>
    }
    assert e.memos[..|e.memos|] == e.memos;
  }

  lemma MemoLaidTree(r: Read, a: Addr, value: Value, note: Fresh, v: Read)
    requires MemoLaid(r, a, value, note, v)
    ensures v.fields == Insert(r.fields, a, value)
  {
  }

  /** `merge_static_records`: the seeds in composition order, then memos, then puts. Only
      puts with stamps can leave records that are no leaf's. */
  method MergeStatic(r: Read, e: Entry, ghost maps: Maps) returns (v: Read, odd: map<string, Fresh>, hit: bool)
    requires Sound(maps, r) && EntryHeld(maps, e)
    ensures Honest(maps, v) && Recorded(v)
    ensures e.stamps == map[] ==> Sound(maps, v) && odd == map[]
    ensures v.fields == if e.put.None? then StaticOver(r.fields, e)
                        else Merged(CutTree(StaticOver(r.fields, e), e.stamps.Keys), e.put.value)
    ensures hit <==> (exists i :: 0 <= i < |e.seeds| && e.seeds[i].fields != map[]) || AnyMemo(e) || e.put.Some?
  {
    hide Exact, Honest, Recorded, Merged, PutsStacked, NamesLand, Laid, CutTree, MemosOver, AnyMemo;
    odd := map[];
    v, hit := Lay(r, e.seeds, maps);
    if e.memo.Some? {
      var any;
      v, any := LayMemos(v, e, maps);
      hit := hit || any;
    } else {
      NoMemoMap(e);
    }
    if e.put.Some? {
      ghost var cut, over;
      ghost var below := v;
      var l := Layer(e.put.value, e.stamps);
      v, odd, cut, over := MergePuts(v, l, e.dir, e.putAt);
      hit := true;
      PutsKeep(maps, below, l, e.dir, Fresh(PUT, e.dir, e.putAt, None), cut, over, v, odd);
      if e.stamps == map[] {
        UnstampedIsExact(l, v, odd);
      }
    } else {
      ExactIsRecorded(v);
    }
  }

  lemma NoMemoMap(e: Entry)
    requires e.memo.None?
    ensures !AnyMemo(e)
  {
  }

  /** Without stamps nothing is noted. */
  lemma UnstampedIsExact(l: Layer, v: Read, odd: map<string, Fresh>)
    requires l.stamps == map[] && (ExactTexts(AllNotes(v, odd), v.fields) <==> NamesLand(l))
    ensures Exact(v)
  {
    TextsAndAddresses(v, odd);
  }

  /** One layer of the walk. A layer with put addresses is read on its own, and what
      comes of it into the answer is its leaves' records, and no other. */
  method JoinEntry(r: Read, e: Entry, layers: Layers, ghost maps: Maps) returns (v: Read, hit: bool)
    requires Sound(maps, r) && EntryHeld(maps, e)
    ensures Sound(maps, v) && v.fields == Joined(r.fields, e, layers)
    ensures hit <==> Hit(e, layers)
  {
    hide Exact, Honest, Recorded, Merged, Laid, CutTree, LinesOver, LinesHeld, StaticOver, AnyMemo;
    var cuts := !layers.Source? && e.stamps != map[];
    var target := if cuts then NOTHING_READ else r;
    NothingReadKeeps(maps);
    hit := false;
    if !layers.Put? && e.lines.Some? {
      target, hit := MergeLines(target, e.lines.value, maps);
    }
    ExactIsRecorded(target);
    if !layers.Source? {
      var more, odd;
      target, odd, more := MergeStatic(target, e, maps);
      assert cuts || odd == map[];
      hit := hit || more;
    }
    v := if cuts then r else target;
    if hit && cuts {
      v := MergeOver(r, target.fields, Theirs(target.records));
      TheirsMarks(maps, target);
      MergeKeeps(maps, r, target.fields, Theirs(target.records), v);
    }
  }

  /** What a provider with no Sources lays below the whole chain. */
  function WholeSheets(whole: Option<Lines>, layers: Layers): seq<Overlay> {
    if whole.Some? && !layers.Put? then LinesSheets(whole.value) else []
  }

  lemma ReadIsPiled(whole: Option<Lines>, chain: seq<Entry>, layers: Layers)
    ensures ChainTree(if whole.Some? && !layers.Put? then LinesOver(map[], whole.value) else map[], chain, layers)
      == Piled(map[], WholeSheets(whole, layers) + ChainOverlays(chain, layers))
    ensures WholeSheets(whole, layers) != [] <==> whole.Some? && !layers.Put? && LinesHit(whole.value)
  {
    hide Piled, ChainTree, ChainOverlays, LinesOver;
    var base := if whole.Some? && !layers.Put? then LinesOver(map[], whole.value) else map[];
    ChainIsPiled(base, chain, layers);
    PiledMore(map[], WholeSheets(whole, layers), ChainOverlays(chain, layers));
    NothingPiled(map[]);
    if whole.Some? && !layers.Put? {
      LinesLaid(map[], whole.value);
      if whole.value.Native? {
        SheetsCount(whole.value.sources);
      }
    }
  }

  lemma MissHasNoParts(chain: seq<Entry>, layers: Layers)
    ensures (exists i :: 0 <= i < |chain| && Hit(chain[i], layers)) <==> exists i :: 0 <= i < |chain| && Parts(chain[i], layers) != []
  {
    hide Hit, Parts;
    forall i | 0 <= i < |chain|
      ensures Hit(chain[i], layers) <==> Parts(chain[i], layers) != []
    {
      HitHasParts(chain[i], layers);
    }
  }

  /** The read of a chain, nearest entry first; `whole` is the `result` of a provider
      with no Sources, read once. A miss when no layer holds anything. Whatever the puts
      of the chain, the record addresses are precisely the leaf addresses of the answer,
      and the map each record names holds that very value there. */
  method ReadChain(chain: seq<Entry>, whole: Option<Lines>, layers: Layers, ghost maps: Maps) returns (out: Option<Read>)
    requires forall e | e in chain :: EntryHeld(maps, e)
    requires whole.Some? ==> LinesHeld(maps, whole.value)
    ensures out.None? <==> (forall i | 0 <= i < |chain| :: Parts(chain[i], layers) == []) && WholeSheets(whole, layers) == []
    ensures out.Some? ==> out.value.fields == Piled(map[], WholeSheets(whole, layers) + ChainOverlays(chain, layers))
    ensures out.Some? ==> Exact(out.value) && Honest(maps, out.value)
  {
    hide Exact, Honest, Merged, Laid, LinesOver, LinesHeld, LinesHit, EntryHeld, Joined, Hit, Parts, Piled, ChainOverlays, WholeSheets;
    var r, found := NOTHING_READ, false;
    NothingReadKeeps(maps);
    if whole.Some? && !layers.Put? {
      r, found := MergeLines(r, whole.value, maps);
    }
    ghost var base, first := r.fields, found;
    var i := |chain|;
    assert chain[i..] == [];
    while i > 0
      invariant 0 <= i <= |chain|
      invariant Sound(maps, r) && r.fields == ChainTree(base, chain[i..], layers)
      invariant found <==> first || exists j :: i <= j < |chain| && Hit(chain[j], layers)
    {
      i := i - 1;
      assert chain[i..][1..] == chain[i + 1..] && chain[i..][0] == chain[i] && chain[i] in chain;
      var hit;
      r, hit := JoinEntry(r, chain[i], layers, maps);
      found := found || hit;
    }
    assert chain[0..] == chain;
    ReadIsPiled(whole, chain, layers);
    MissHasNoParts(chain, layers);
    out := if found then Some(r) else None;
  }
}
