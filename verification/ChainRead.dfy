/** A read of one namespace over its directory chain (`read_merged` of src/cache.rs):
    every layer's tree merged farthest first, with one provenance record per leaf. */
module ChainRead {
  import opened Prelude
  import opened Tree
  import opened Keys
  import opened Puts
  import opened TreeCuts
  import opened Merge
  import opened MergeRead
  import opened PutNotes

  const MEMO := "memo:"

  /** One source map, and what its records say. */
  datatype Contribution = Contribution(note: Fresh, fields: Fields)

  /** A provider's lines at one entry: by default its Sources' maps, in the order they
      are declared; a `result` line renders a tree, each leaf with its record; and a
      line that fails, or that gives nothing, leaves nothing. */
  datatype Lines = Native(sources: seq<Contribution>) | Rendered(read: Read) | Missing

  /** A cache entry as a read meets it. `lines` is there where the read visited an
      instance; `memo` and `put` are the memo and put maps, where there are any; the
      stamps of memos are met in the order of their addresses. */
  datatype Entry = Entry(dir: Dir, lines: Option<Lines>, seeds: seq<Contribution>,
                         memo: Option<Fields>, memos: seq<(Addr, Stamp)>,
                         put: Option<Fields>, stamps: map<Addr, Stamp>, putAt: nat)

  datatype Layers = All | Put | Source | Cache

  // ---- Puts over what lies below ----------------------------------------

  /** `g` is what is left of `r` once the subtree at every address of `at` is cut. */
  ghost predicate CutRead(r: Read, at: set<Addr>, g: Read) {
    && IsCut(r.fields, at, g.fields)
    && forall a {:trigger Get(g.records, a)} ::
         Get(g.records, a) == if Covered(at, a) then None else Get(r.records, a)
  }

  lemma CutReadOne(r: Read, at: set<Addr>, g: Read, d: Addr)
    requires CutRead(r, at, g)
    ensures CutRead(r, at + {d}, Read(Without(g.fields, d), Forgotten(g.records, d)))
  {
    CutOne(r.fields, at, g.fields, d);
    forall a
      ensures Get(Forgotten(g.records, d), a) == if Covered(at + {d}, a) then None else Get(r.records, a)
    {
      CoveredWith(at, d, a);
      assert Get(Forgotten(g.records, d), a) == if d <= a then None else Get(g.records, a);
    }
  }

  /** The read, with the records under texts that are no canonical address. */
  function AllNotes(v: Read, odd: map<string, Fresh>): Notes {
    Notes(v.records, odd)
  }

  /** `v` is `r` with the puts of a layer stacked on top, and `odd` the records that come
      with it under texts that are no canonical address; `cut` is the tree cut for the
      puts, and `whole` what the put map's own freshness says. */
  ghost predicate PutsStacked(r: Read, l: Layer, dir: Dir, whole: Fresh, cut: Read, over: Read, v: Read, odd: map<string, Fresh>) {
    && CutRead(r, l.stamps.Keys, cut)
    && MergedAs(cut, l.fields, Whole(whole), over)
    && v.fields == over.fields
    && KeysNoted(AllNotes(over, map[]), l.fields, l.fields.Keys, None, l.stamps, dir, AllNotes(v, odd))
  }

  /** The texts of the records are precisely those of the leaves. */
  ghost predicate ExactTexts(n: Notes, f: Fields) {
    forall t {:trigger RecordAt(n, t)} :: RecordAt(n, t).Some? <==> TextLands(f, t)
  }

  lemma TextsAndAddresses(v: Read, odd: map<string, Fresh>)
    requires ExactTexts(AllNotes(v, odd), v.fields)
    ensures Exact(v)
  {
    forall a
      ensures Get(v.records, a).Some? <==> Leaf(v.fields, a).Some?
    {
      TextIsCanonical(a);
      assert RecordAt(AllNotes(v, odd), Text(a)).Some? <==> TextLands(v.fields, Text(a));
    }
  }

  lemma CutKeeps(maps: Maps, r: Read, at: set<Addr>, g: Read)
    requires Exact(r) && Honest(maps, r) && CutRead(r, at, g)
    ensures Exact(g) && Honest(maps, g)
  {
    forall a
      ensures Get(g.records, a).Some? <==> Leaf(g.fields, a).Some?
      ensures Get(g.records, a).Some? ==> Names(maps, Get(g.records, a).value, a, Leaf(g.fields, a))
    {
      assert Get(r.records, a).Some? <==> Leaf(r.fields, a).Some?;
    }
  }

  /** Under a stamp the merged tree holds the put map's leaves and no others. */
  lemma GovernedLeaf(r: Read, l: Layer, cut: Read, a: Addr)
    requires CutRead(r, l.stamps.Keys, cut) && Nearest(l.stamps, a).Some?
    ensures Leaf(Merged(cut.fields, l.fields), a) == Leaf(l.fields, a)
  {
    if a != [] {
      CutUnder(r.fields, l, cut.fields, a);
      MergedLeaf(cut.fields, l.fields, a);
      LandsIsNotHidden(l.fields, a);
    }
  }

  /** What the notes leave under one text. */
  lemma PutsKeepAt(r: Read, l: Layer, dir: Dir, whole: Fresh, cut: Read, over: Read, v: Read, odd: map<string, Fresh>, t: string)
    requires Exact(over) && PutsStacked(r, l, dir, whole, cut, over, v, odd)
    ensures if Named(l.fields, t) && PutAddressFor(l.stamps, t).Some?
            then RecordAt(AllNotes(v, odd), t).Some? && (TextLands(v.fields, t) <==> TextLands(l.fields, t))
            else RecordAt(AllNotes(v, odd), t).Some? <==> TextLands(v.fields, t)
  {
    hide Exact, Named, NamedBy, PutAddressFor, ReadingOf;
    assert RecordAt(AllNotes(v, odd), t) ==
      Noting(Named(l.fields, t), PutMark(l.stamps, dir, t), RecordAt(AllNotes(over, map[]), t)) by { NamedAll(l.fields, t); }
    if ReadingOf(t).Canonical? {
      var a := ReadingOf(t).addr;
      PutAddressIs(l.stamps, t);
      if Nearest(l.stamps, a).Some? {
        GovernedLeaf(r, l, cut, a);
      }
      ExactAt(over, a);
    }
  }

  lemma NamedAll(f: Fields, t: string)
    ensures Named(f, t) <==> NamedBy(f, f.Keys, None, t)
  {
  }

  lemma ExactAt(r: Read, a: Addr)
    requires Exact(r)
    ensures Get(r.records, a).Some? <==> Leaf(r.fields, a).Some?
  {
  }

  /** The record at an address once the puts are stacked. */
  lemma PutRecordAt(r: Read, l: Layer, dir: Dir, whole: Fresh, cut: Read, over: Read, v: Read, odd: map<string, Fresh>, a: Addr)
    requires PutsStacked(r, l, dir, whole, cut, over, v, odd)
    ensures var n := Nearest(l.stamps, a);
      Get(v.records, a) ==
        if Named(l.fields, Text(a)) && n.Some? then Some(Fresh(PUT, dir, l.stamps[n.value].written, l.stamps[n.value].ttl))
        else Get(over.records, a)
  {
    hide Named, NamedBy, PutAddressFor, ReadingOf;
    NamedAll(l.fields, Text(a));
    TextIsCanonical(a);
    PutAddressOf(l.stamps, a);
    assert RecordAt(AllNotes(v, odd), Text(a)) ==
      Noting(Named(l.fields, Text(a)), PutMark(l.stamps, dir, Text(a)), RecordAt(AllNotes(over, map[]), Text(a)));
  }

  /** The record the put map has for `a`: with the time and ttl of the nearest stamp above
      it, if one of its keys' texts is that of `a`, and else with the map's own. */
  ghost function PutSays(l: Layer, dir: Dir, whole: Fresh, a: Addr): Fresh {
    var n := Nearest(l.stamps, a);
    if Named(l.fields, Text(a)) && n.Some? then Fresh(PUT, dir, l.stamps[n.value].written, l.stamps[n.value].ttl)
    else whole
  }

  /** `maps` has the put map of `dir`, with these records. */
  ghost predicate PutKnown(maps: Maps, l: Layer, dir: Dir, whole: Fresh) {
    && (PUT, dir) in maps && maps[(PUT, dir)].fields == l.fields && whole.source == PUT && whole.entry == dir
    && forall a {:trigger maps[(PUT, dir)].says(a)} :: maps[(PUT, dir)].says(a) == PutSays(l, dir, whole, a)
  }

  lemma PutsHonestAt(maps: Maps, r: Read, l: Layer, dir: Dir, whole: Fresh, cut: Read, over: Read, v: Read, odd: map<string, Fresh>, a: Addr)
    requires Exact(cut) && Honest(maps, cut) && PutsStacked(r, l, dir, whole, cut, over, v, odd) && PutKnown(maps, l, dir, whole)
    ensures Get(v.records, a).Some? ==> Names(maps, Get(v.records, a).value, a, Leaf(v.fields, a))
    ensures Leaf(v.fields, a).Some? ==> Get(v.records, a).Some?
  {
    hide Named, Text, CutRead, KeysNoted;
    PutRecordAt(r, l, dir, whole, cut, over, v, odd, a);
    assert maps[(PUT, dir)].says(a) == PutSays(l, dir, whole, a);
    assert Get(cut.records, a).Some? <==> Leaf(cut.fields, a).Some?;
    AfterIs(cut.fields, l.fields, a, Get(cut.records, a), Some(whole));
    MergedLeaf(cut.fields, l.fields, a);
    LandsIsNotHidden(l.fields, a);
    if Nearest(l.stamps, a).Some? {
      GovernedLeaf(r, l, cut, a);
    }
  }

  /** Stacking puts keeps provenance honest and leaves no leaf without its record. The
      texts of the records are those of the leaves if and only if every text the put
      map's keys name, and a stamp governs, is that of a put leaf. */
  lemma PutsKeep(maps: Maps, r: Read, l: Layer, dir: Dir, whole: Fresh, cut: Read, over: Read, v: Read, odd: map<string, Fresh>)
    requires Exact(r) && Honest(maps, r) && PutsStacked(r, l, dir, whole, cut, over, v, odd) && PutKnown(maps, l, dir, whole)
    ensures Honest(maps, v) && Recorded(v)
    ensures ExactTexts(AllNotes(v, odd), v.fields) <==> NamesLand(l)
  {
    hide PutsStacked, Named, PutAddressFor, RecordAt, TextLands, AllNotes, PutKnown;
    assert Exact(cut) && Honest(maps, cut) && Exact(over) by { PutsOverKeeps(maps, r, l, dir, whole, cut, over, v, odd); }
    forall a
      ensures Get(v.records, a).Some? ==> Names(maps, Get(v.records, a).value, a, Leaf(v.fields, a))
      ensures Leaf(v.fields, a).Some? ==> Get(v.records, a).Some?
    {
      PutsHonestAt(maps, r, l, dir, whole, cut, over, v, odd, a);
    }
    forall t
      ensures if Named(l.fields, t) && PutAddressFor(l.stamps, t).Some?
              then RecordAt(AllNotes(v, odd), t).Some? && (TextLands(v.fields, t) <==> TextLands(l.fields, t))
              else RecordAt(AllNotes(v, odd), t).Some? <==> TextLands(v.fields, t)
    {
      PutsKeepAt(r, l, dir, whole, cut, over, v, odd, t);
    }
  }

  lemma PutsOverKeeps(maps: Maps, r: Read, l: Layer, dir: Dir, whole: Fresh, cut: Read, over: Read, v: Read, odd: map<string, Fresh>)
    requires Exact(r) && Honest(maps, r) && PutsStacked(r, l, dir, whole, cut, over, v, odd)
    ensures Exact(cut) && Honest(maps, cut) && Exact(over)
  {
    CutKeeps(maps, r, l.stamps.Keys, cut);
    forall a
      ensures Get(over.records, a).Some? <==> Leaf(over.fields, a).Some?
    {
      hide CutRead, KeysNoted, Honest;
      assert Get(cut.records, a).Some? <==> Leaf(cut.fields, a).Some?;
      AfterIs(cut.fields, l.fields, a, Get(cut.records, a), Some(whole));
      MergedLeaf(cut.fields, l.fields, a);
    }
  }

  /** The record of a put leaf carries the freshness of the nearest stamp above it if
      some top-level key's text names the leaf, and else the put map's own, which has
      no ttl. */
  lemma PutLeafRecord(r: Read, l: Layer, dir: Dir, whole: Fresh, cut: Read, over: Read, v: Read, odd: map<string, Fresh>, a: Addr)
    requires Exact(r) && Stamped(l) && PutsStacked(r, l, dir, whole, cut, over, v, odd) && Leaf(l.fields, a).Some?
    ensures var n := Nearest(l.stamps, a);
      && n.Some?
      && Get(v.records, a) ==
           Some(if Named(l.fields, Text(a))
                then Fresh(PUT, dir, l.stamps[n.value].written, l.stamps[n.value].ttl)
                else whole)
  {
    hide Named, Text, KeysNoted;
    PutRecordAt(r, l, dir, whole, cut, over, v, odd, a);
    CutUnder(r.fields, l, cut.fields, a);
    assert Nearest(l.stamps, a).Some?;
    assert Get(r.records, a).Some? <==> Leaf(r.fields, a).Some?;
    AfterIs(cut.fields, l.fields, a, Get(cut.records, a), Some(whole));
  }

  /** So where no top-level key is empty or starts with a bracket, a put leaf reads with
      the ttl it was put with if and only if its first segment needs no quotes. */
  lemma TtlIsReadExactly(r: Read, l: Layer, dir: Dir, whole: Fresh, cut: Read, over: Read, v: Read, odd: map<string, Fresh>, a: Addr)
    requires Exact(r) && Stamped(l) && PutsStacked(r, l, dir, whole, cut, over, v, odd) && Leaf(l.fields, a).Some?
    requires forall k | k in l.fields :: k != "" && k[0] != '['
    requires whole.ttl.None?
    ensures var n := Nearest(l.stamps, a);
      && n.Some? && Get(v.records, a).Some?
      && (Get(v.records, a).value.ttl == l.stamps[n.value].ttl <==> Bare(a[0]) || l.stamps[n.value].ttl.None?)
  {
    hide PutsStacked, Named, Exact, Stamped;
    PutLeafRecord(r, l, dir, whole, cut, over, v, odd, a);
    NotedExactly(l.fields, a);
  }

  /** Over every run of puts, removals and evictions, the record of a put leaf that a key's
      text names has the time and the ttl of the put that stated the leaf. */
  lemma PutReadsItsOwn(ls: seq<Layer>, ops: seq<Op>, i: nat, dir: Dir, whole: Fresh, a: Addr) returns (j: nat)
    requires Runs(ls, ops) && ls[0] == NO_PUTS && i < |ls| && Leaf(ls[i].fields, a).Some?
    ensures IsItsPut(ls[i], ops, i, a, j)
    ensures PutSays(ls[i], dir, whole, a) ==
      if Named(ls[i].fields, Text(a)) then Fresh(PUT, dir, ops[j].stamp.written, ops[j].stamp.ttl) else whole
  {
    hide Named, Text, Leaf;
    j := LeafIsItsPuts(ls, ops, i, a);
  }

  // ---- A memo over what lies below --------------------------------------

  /** `v` is `r` with `value` laid at `a`, and no other record at the address, under it
      or on the way to it. */
  ghost predicate MemoLaid(r: Read, a: Addr, value: Value, note: Fresh, v: Read) {
    && v.fields == Insert(r.fields, a, value)
    && forall t {:trigger Get(v.records, t)} ::
         Get(v.records, t) ==
           if a <= t then (if LeafIn(value, t[|a|..]).Some? then Some(note) else None)
           else if t < a && t != [] then None
           else Get(r.records, t)
  }

  /** Laying a memo keeps provenance exact and honest. */
  lemma MemoKeeps(maps: Maps, r: Read, a: Addr, value: Value, note: Fresh, v: Read)
    requires a != [] && Exact(r) && Honest(maps, r) && MemoLaid(r, a, value, note, v)
    requires (note.source, note.entry) in maps && Lookup(maps[(note.source, note.entry)].fields, a) == Some(value)
    requires forall t | a <= t && LeafIn(value, t[|a|..]).Some? :: maps[(note.source, note.entry)].says(t) == note
    ensures Exact(v) && Honest(maps, v)
  {
    forall t
      ensures Get(v.records, t).Some? <==> Leaf(v.fields, t).Some?
      ensures Get(v.records, t).Some? ==> Names(maps, Get(v.records, t).value, t, Leaf(v.fields, t))
    {
      LeafInsert(r.fields, a, value, t);
      LeafAcross(maps[(note.source, note.entry)].fields, a, t);
      assert Get(r.records, t).Some? <==> Leaf(r.fields, t).Some?;
    }
  }

  // ---- The tree of a read -----------------------------------------------

  function Laid(base: Fields, cs: seq<Contribution>): Fields {
    if cs == [] then base else Merged(Laid(base, cs[..|cs| - 1]), cs[|cs| - 1].fields)
  }

  /** The memos that have a value, each over what was merged before it. */
  function MemosOver(base: Fields, held: Fields, memos: seq<(Addr, Stamp)>): Fields {
    if memos == [] then base
    else
      var last := memos[|memos| - 1].0;
      var below := MemosOver(base, held, memos[..|memos| - 1]);
      match Lookup(held, last)
      case Some(v) => Insert(below, last, v)
      case None => below
  }

  function LinesOver(base: Fields, lines: Lines): Fields {
    match lines
    case Native(cs) => Laid(base, cs)
    case Rendered(r) => Merged(base, r.fields)
    case Missing => base
  }

  /** The seeds and memos of an entry. */
  function StaticOver(base: Fields, e: Entry): Fields {
    var seeded := Laid(base, e.seeds);
    if e.memo.Some? then MemosOver(seeded, e.memo.value, e.memos) else seeded
  }

  /** The maps of an entry below its puts, over `base`. */
  function LowerOver(base: Fields, e: Entry, layers: Layers): Fields {
    var below := if !layers.Put? && e.lines.Some? then LinesOver(base, e.lines.value) else base;
    if layers.Source? then below else StaticOver(below, e)
  }

  ghost function EntryOver(base: Fields, e: Entry, layers: Layers): Fields {
    var below := LowerOver(base, e, layers);
    if layers.Source? || e.put.None? then below
    else Merged(CutTree(below, e.stamps.Keys), e.put.value)
  }

  predicate LinesHit(lines: Lines) {
    match lines
    case Native(cs) => cs != []
    case Rendered(_) => true
    case Missing => false
  }

  predicate AnyMemo(e: Entry) {
    e.memo.Some? && exists i :: 0 <= i < |e.memos| && Lookup(e.memo.value, e.memos[i].0).Some?
  }

  /** The entry has something to give the read. */
  predicate Hit(e: Entry, layers: Layers) {
    || (!layers.Put? && e.lines.Some? && LinesHit(e.lines.value))
    || (!layers.Source? && ((exists i :: 0 <= i < |e.seeds| && e.seeds[i].fields != map[]) || AnyMemo(e) || e.put.Some?))
  }

  /** The entry holds put addresses, and so is merged as one tree. */
  predicate Cuts(e: Entry, layers: Layers) {
    !layers.Source? && e.stamps != map[]
  }

  ghost function Joined(base: Fields, e: Entry, layers: Layers): Fields {
    if !Cuts(e, layers) then EntryOver(base, e, layers)
    else if Hit(e, layers) then Merged(base, EntryOver(map[], e, layers))
    else base
  }

  /** The tree of the whole chain, nearest entry first: the farthest is the base. */
  ghost function ChainTree(base: Fields, chain: seq<Entry>, layers: Layers): Fields {
    if chain == [] then base else Joined(ChainTree(base, chain[1..], layers), chain[0], layers)
  }

  lemma MergedOver(f: Fields)
    ensures Merged(map[], f) == f
  {
  }
}
