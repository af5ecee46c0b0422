/** What a read of several entries gives at one address (`read_merged` of src/cache.rs):
    of everything laid down, farthest first, the nearest that has a say there decides. */
module ChainRule {
  import opened Prelude
  import opened Tree
  import opened Puts
  import opened TreeCuts
  import opened Merge
  import opened ChainRead

  /** One thing a read lays over what lies below it: a tree merged in, a memo put in place
      of what stood at its address, or put addresses that cut what stood at them. */
  datatype Overlay = Sheet(fields: Fields) | Memo(at: Addr, value: Value) | Cut(addrs: set<Addr>)

  ghost function LaidOn(f: Fields, o: Overlay): Fields {
    match o
    case Sheet(g) => Merged(f, g)
    case Memo(a, v) => Insert(f, a, v)
    case Cut(at) => CutTree(f, at)
  }

  /** The overlays laid down in turn. */
  ghost function Piled(base: Fields, os: seq<Overlay>): Fields {
    if os == [] then base else LaidOn(Piled(base, os[..|os| - 1]), os[|os| - 1])
  }

  // ---- One address ------------------------------------------------------

  /** The leaf the overlay has at `a`. */
  function LeafOf(o: Overlay, a: Addr): Option<Value> {
    match o
    case Sheet(g) => Leaf(g, a)
    case Memo(at, v) => if at <= a then LeafIn(v, a[|at|..]) else None
    case Cut(_) => None
  }

  /** The overlay leaves no room for a leaf of another at `a`: a leaf of its own shadows
      the address, it is a memo at, below or above it, or it cuts at or above it. */
  ghost predicate Bars(o: Overlay, a: Addr) {
    match o
    case Sheet(g) => Hidden(g, a)
    case Memo(at, v) => Overlaps(at, a)
    case Cut(at) => Covered(at, a)
  }

  /** An empty object of the overlay's does not land where an object stands below it. */
  predicate Yields(below: Fields, o: Overlay, a: Addr) {
    && o.Sheet? && LeafOf(o, a) == Some(EMPTY)
    && Lookup(below, a).Some? && Lookup(below, a).value.Object?
  }

  /** The overlay decides what is at `a`, over `below`. */
  ghost predicate Decides(below: Fields, o: Overlay, a: Addr) {
    (LeafOf(o, a).Some? && !Yields(below, o, a)) || Bars(o, a)
  }

  lemma EmptyLeaf(g: Fields, a: Addr)
    requires Leaf(g, a).Some? && Leaf(g, a).value.Object?
    ensures Leaf(g, a) == Some(EMPTY)
  {
  }

  lemma LaidLeaf(below: Fields, o: Overlay, a: Addr)
    requires o.Memo? ==> o.at != []
    ensures Leaf(LaidOn(below, o), a) == if Decides(below, o, a) then LeafOf(o, a) else Leaf(below, a)
  {
    match o
    case Sheet(g) =>
      MergedLeaf(below, g, a);
      LandsIsNotHidden(g, a);
      if Leaf(g, a).Some? && Leaf(g, a).value.Object? {
        EmptyLeaf(g, a);
      }
    case Memo(at, v) => LeafInsert(below, at, v, a);
    case Cut(at) => CutTreeIs(below, at);
  }

  ghost predicate Rooted(os: seq<Overlay>) {
    forall o | o in os :: o.Memo? ==> o.at != []
  }

  /** The `i`th overlay is the nearest that decides. */
  ghost predicate IsNearest(base: Fields, os: seq<Overlay>, a: Addr, i: nat) {
    && i < |os| && Decides(Piled(base, os[..i]), os[i], a)
    && forall j | i < j < |os| :: !Decides(Piled(base, os[..j]), os[j], a)
  }

  lemma {:induction false} PiledLeaf(base: Fields, os: seq<Overlay>, a: Addr, i: nat)
    requires Rooted(os) && IsNearest(base, os, a, i)
    ensures Leaf(Piled(base, os), a) == LeafOf(os[i], a)
  {
    hide Decides;
    var n := |os| - 1;
    assert os[n] in os;
    LaidLeaf(Piled(base, os[..n]), os[n], a);
    if i < n {
      NearestBefore(base, os, a, i);
      PiledLeaf(base, os[..n], a, i);
    }
  }

  ghost predicate NoneDecides(base: Fields, os: seq<Overlay>, a: Addr) {
    forall i | 0 <= i < |os| :: !Decides(Piled(base, os[..i]), os[i], a)
  }

  lemma {:induction false} PiledNone(base: Fields, os: seq<Overlay>, a: Addr)
    requires Rooted(os) && NoneDecides(base, os, a)
    ensures Leaf(Piled(base, os), a) == Leaf(base, a)
  {
    hide Decides;
    if os != [] {
      var n := |os| - 1;
      var front := os[..n];
      assert os[n] in os;
      LaidLeaf(Piled(base, front), os[n], a);
      forall i | 0 <= i < n
        ensures !Decides(Piled(base, front[..i]), front[i], a)
      {
        assert front[..i] == os[..i] && front[i] == os[i];
      }
      PiledNone(base, front, a);
    }
  }

  lemma NearestBefore(base: Fields, os: seq<Overlay>, a: Addr, i: nat)
    requires IsNearest(base, os, a, i) && i < |os| - 1
    ensures IsNearest(base, os[..|os| - 1], a, i) && !Decides(Piled(base, os[..|os| - 1]), os[|os| - 1], a)
  {
    hide Decides;
    var front := os[..|os| - 1];
    assert forall j | 0 <= j <= |front| :: front[..j] == os[..j];
    assert front[i] == os[i];
    forall j | i < j < |front|
      ensures !Decides(Piled(base, front[..j]), front[j], a)
    {
      assert front[j] == os[j];
    }
  }

  // ---- The overlays of a chain ------------------------------------------

  function Sheets(cs: seq<Contribution>): seq<Overlay> {
    if cs == [] then [] else Sheets(cs[..|cs| - 1]) + [Sheet(cs[|cs| - 1].fields)]
  }

  function MemoSheets(held: Fields, memos: seq<(Addr, Stamp)>): seq<Overlay> {
    if memos == [] then []
    else
      var last := memos[|memos| - 1].0;
      MemoSheets(held, memos[..|memos| - 1]) +
      match Lookup(held, last)
      case Some(v) => [Memo(last, v)]
      case None => []
  }

  function LinesSheets(lines: Lines): seq<Overlay> {
    match lines
    case Native(cs) => Sheets(cs)
    case Rendered(r) => [Sheet(r.fields)]
    case Missing => []
  }

  /** The seeds that hold anything. */
  function SeedSheets(cs: seq<Contribution>): seq<Overlay> {
    if cs == [] then []
    else
      SeedSheets(cs[..|cs| - 1]) + if cs[|cs| - 1].fields == map[] then [] else [Sheet(cs[|cs| - 1].fields)]
  }

  /** What one entry has below its puts: its provider's maps, then its seeds in
      composition order, then its memos; whether it holds put addresses or not. */
  function LowerSheets(e: Entry, layers: Layers): seq<Overlay> {
    (if !layers.Put? && e.lines.Some? then LinesSheets(e.lines.value) else []) +
    (if layers.Source? then [] else SeedSheets(e.seeds) + MemosOf(e))
  }

  function MemosOf(e: Entry): seq<Overlay> {
    if e.memo.Some? then MemoSheets(e.memo.value, e.memos) else []
  }

  /** And its puts: the cuts of their addresses, and the put map. */
  function PutSheets(e: Entry, layers: Layers): seq<Overlay> {
    if layers.Source? || e.put.None? then [] else [Cut(e.stamps.Keys), Sheet(e.put.value)]
  }

  function Parts(e: Entry, layers: Layers): seq<Overlay> {
    LowerSheets(e, layers) + PutSheets(e, layers)
  }

  /** What one entry lays over the farther ones: its parts in turn; and where it holds put
      addresses, whose cuts are to reach nothing farther, all of them as one tree. */
  ghost function Overlays(e: Entry, layers: Layers): seq<Overlay> {
    if !layers.Source? && e.stamps != map[] then [Sheet(Piled(map[], Parts(e, layers)))] else Parts(e, layers)
  }

  /** What the whole chain lays down, the nearest entry last. */
  ghost function ChainOverlays(chain: seq<Entry>, layers: Layers): seq<Overlay> {
    if chain == [] then [] else ChainOverlays(chain[1..], layers) + Overlays(chain[0], layers)
  }

  lemma {:induction false} PiledMore(base: Fields, a: seq<Overlay>, b: seq<Overlay>)
    ensures Piled(base, a + b) == Piled(Piled(base, a), b)
    decreases |b|
  {
    hide LaidOn;
    if b == [] {
      assert a + b == a;
    } else {
      var front := b[..|b| - 1];
      PiledMore(base, a, front);
      assert (a + b)[..|a + b| - 1] == a + front;
    }
  }

  lemma {:induction false} SheetsLaid(base: Fields, cs: seq<Contribution>)
    ensures Piled(base, Sheets(cs)) == Laid(base, cs)
  {
    if cs != [] {
      SheetsLaid(base, cs[..|cs| - 1]);
      PiledMore(base, Sheets(cs[..|cs| - 1]), [Sheet(cs[|cs| - 1].fields)]);
      PiledOne(Laid(base, cs[..|cs| - 1]), Sheet(cs[|cs| - 1].fields));
    }
  }

  lemma PiledOne(base: Fields, o: Overlay)
    ensures Piled(base, [o]) == LaidOn(base, o)
  {
    assert [o][..0] == [] && Piled(base, []) == base;
  }

  lemma {:induction false} MemosLaid(base: Fields, held: Fields, memos: seq<(Addr, Stamp)>)
    ensures Piled(base, MemoSheets(held, memos)) == MemosOver(base, held, memos)
  {
    if memos != [] {
      var front, last := memos[..|memos| - 1], memos[|memos| - 1].0;
      MemosLaid(base, held, front);
      match Lookup(held, last)
      case Some(v) =>
        PiledMore(base, MemoSheets(held, front), [Memo(last, v)]);
        PiledOne(MemosOver(base, held, front), Memo(last, v));
      case None =>
        assert MemoSheets(held, front) + [] == MemoSheets(held, front);
    }
  }

  lemma LinesLaid(base: Fields, lines: Lines)
    ensures Piled(base, LinesSheets(lines)) == LinesOver(base, lines)
  {
    match lines
    case Native(cs) => SheetsLaid(base, cs);
    case Rendered(r) => PiledOne(base, Sheet(r.fields));
    case Missing =>
  }

  lemma {:induction false} SeedsLaid(base: Fields, cs: seq<Contribution>)
    ensures Piled(base, SeedSheets(cs)) == Laid(base, cs)
  {
    hide Piled, LaidOn, Merged;
    if cs == [] {
      NothingPiled(base);
    } else {
      var front, last := cs[..|cs| - 1], cs[|cs| - 1].fields;
      SeedsLaid(base, front);
      MergedEmpty(Laid(base, front), last);
      PiledMore(base, SeedSheets(front), [Sheet(last)]);
      PiledOne(Laid(base, front), Sheet(last));
      SheetIsMerge(Laid(base, front), last);
      assert SeedSheets(front) + [] == SeedSheets(front);
    }
  }

  lemma SheetIsMerge(base: Fields, g: Fields)
    ensures LaidOn(base, Sheet(g)) == Merged(base, g)
  {
  }

  /** What lies below the puts of any entry, stamped or not, is its lower parts piled. */
  lemma LowerLaid(base: Fields, e: Entry, layers: Layers)
    ensures LowerOver(base, e, layers) == Piled(base, LowerSheets(e, layers))
  {
    hide LaidOn, Merged, Piled, SeedSheets, MemoSheets, LinesSheets, LinesOver, Laid, MemosOver;
    var provided := if !layers.Put? && e.lines.Some? then LinesSheets(e.lines.value) else [];
    var below := if !layers.Put? && e.lines.Some? then LinesOver(base, e.lines.value) else base;
    NothingPiled(base);
    NothingPiled(below);
    if !layers.Put? && e.lines.Some? {
      LinesLaid(base, e.lines.value);
    }
    assert provided + [] == provided;
    if !layers.Source? {
      var seeded := Laid(below, e.seeds);
      SeedsLaid(below, e.seeds);
      PiledMore(base, provided, SeedSheets(e.seeds) + MemosOf(e));
      PiledMore(below, SeedSheets(e.seeds), MemosOf(e));
      NothingPiled(seeded);
      if e.memo.Some? {
        MemosLaid(seeded, e.memo.value, e.memos);
      }
    }
  }

  lemma EntryLaid(base: Fields, e: Entry, layers: Layers)
    ensures EntryOver(base, e, layers) == Piled(base, Parts(e, layers))
  {
    hide LaidOn, Merged, Piled, LowerSheets, LowerOver, CutTree;
    var below := LowerOver(base, e, layers);
    LowerLaid(base, e, layers);
    PiledMore(base, LowerSheets(e, layers), PutSheets(e, layers));
    NothingPiled(below);
    if !layers.Source? && e.put.Some? {
      var cut := CutTree(below, e.stamps.Keys);
      assert [Cut(e.stamps.Keys), Sheet(e.put.value)] == [Cut(e.stamps.Keys)] + [Sheet(e.put.value)];
      PiledMore(below, [Cut(e.stamps.Keys)], [Sheet(e.put.value)]);
      PiledOne(below, Cut(e.stamps.Keys));
      CutIsCut(below, e.stamps.Keys);
      PiledOne(cut, Sheet(e.put.value));
      SheetIsMerge(cut, e.put.value);
    }
  }

  lemma CutIsCut(base: Fields, at: set<Addr>)
    ensures LaidOn(base, Cut(at)) == CutTree(base, at)
  {
  }

  lemma {:induction false} SeedsHit(cs: seq<Contribution>)
    ensures SeedSheets(cs) != [] <==> exists i :: 0 <= i < |cs| && cs[i].fields != map[]
  {
    if cs != [] {
      var front := cs[..|cs| - 1];
      SeedsHit(front);
      if i :| 0 <= i < |cs| && cs[i].fields != map[] {
        if i < |front| {
          assert front[i].fields != map[];
        }
      }
      if i :| 0 <= i < |front| && front[i].fields != map[] {
        assert cs[i].fields != map[];
      }
    }
  }

  lemma {:induction false} MemosHit(held: Fields, memos: seq<(Addr, Stamp)>)
    ensures MemoSheets(held, memos) != [] <==> exists i :: 0 <= i < |memos| && Lookup(held, memos[i].0).Some?
  {
    if memos != [] {
      var front := memos[..|memos| - 1];
      MemosHit(held, front);
      if i :| 0 <= i < |memos| && Lookup(held, memos[i].0).Some? {
        if i < |front| {
          assert front[i] == memos[i];
        }
      }
      if i :| 0 <= i < |front| && Lookup(held, front[i].0).Some? {
        assert memos[i] == front[i];
      }
    }
  }

  lemma SheetsCount(cs: seq<Contribution>)
    ensures |Sheets(cs)| == |cs|
  {
  }

  /** An entry is a hit exactly if it has a part to lay. */
  lemma HitHasParts(e: Entry, layers: Layers)
    ensures Hit(e, layers) <==> Parts(e, layers) != []
  {
    hide SeedSheets, MemoSheets, Sheets;
    SeedsHit(e.seeds);
    if e.memo.Some? {
      MemosHit(e.memo.value, e.memos);
    }
    if e.lines.Some? && e.lines.value.Native? {
      SheetsCount(e.lines.value.sources);
    }
  }

  lemma EntryJoined(base: Fields, e: Entry, layers: Layers)
    ensures Joined(base, e, layers) == Piled(base, Overlays(e, layers))
  {
    hide LaidOn, Merged, Piled, Parts, EntryOver, Hit;
    HitHasParts(e, layers);
    EntryLaid(base, e, layers);
    EntryLaid(map[], e, layers);
    var own := Piled(map[], Parts(e, layers));
    PiledOne(base, Sheet(own));
    SheetIsMerge(base, own);
    NothingPiled(map[]);
    MergedEmpty(base, own);
  }

  lemma NothingPiled(base: Fields)
    ensures Piled(base, []) == base
  {
  }

  lemma {:induction false} ChainIsPiled(base: Fields, chain: seq<Entry>, layers: Layers)
    ensures Piled(base, ChainOverlays(chain, layers)) == ChainTree(base, chain, layers)
  {
    hide Piled, Overlays, Joined;
    if chain == [] {
      NothingPiled(base);
    } else {
      ChainIsPiled(base, chain[1..], layers);
      PiledMore(base, ChainOverlays(chain[1..], layers), Overlays(chain[0], layers));
      EntryJoined(ChainTree(base, chain[1..], layers), chain[0], layers);
    }
  }

  /** The read of a whole chain, at one address: the leaf of the nearest overlay that has
      one there and that no nearer one bars, an empty object yielding to an object that
      stands below it; where the nearest that decides only bars it, nothing; and where
      none decides, what was below the chain. */
  lemma ChainLeaf(base: Fields, chain: seq<Entry>, layers: Layers, a: Addr)
    requires forall e, m | e in chain && m in e.memos :: m.0 != []
    ensures var os := ChainOverlays(chain, layers);
      && (forall i: nat | IsNearest(base, os, a, i) :: Leaf(Piled(base, os), a) == LeafOf(os[i], a))
      && (NoneDecides(base, os, a) ==> Leaf(Piled(base, os), a) == Leaf(base, a))
  {
    hide Decides, IsNearest, NoneDecides, Rooted;
    var os := ChainOverlays(chain, layers);
    ChainRooted(chain, layers);
    forall i: nat | IsNearest(base, os, a, i)
      ensures i < |os| && Leaf(Piled(base, os), a) == LeafOf(os[i], a)
    {
      PiledLeaf(base, os, a, i);
      NearestWithin(base, os, a, i);
    }
    if NoneDecides(base, os, a) {
      PiledNone(base, os, a);
    }
  }

  lemma NearestWithin(base: Fields, os: seq<Overlay>, a: Addr, i: nat)
    requires IsNearest(base, os, a, i)
    ensures i < |os|
  {
  }

  /** One of the two holds: some overlay is the nearest that decides, or none decides. */
  lemma {:induction false} SomeOrNone(base: Fields, os: seq<Overlay>, a: Addr) returns (i: nat)
    ensures IsNearest(base, os, a, i) || NoneDecides(base, os, a)
  {
    hide Decides;
    i := |os|;
    while i > 0
      invariant i <= |os| && forall j | i <= j < |os| :: !Decides(Piled(base, os[..j]), os[j], a)
    {
      i := i - 1;
      if Decides(Piled(base, os[..i]), os[i], a) {
        return;
      }
    }
  }

  lemma {:induction false} MemoSheetsRooted(held: Fields, memos: seq<(Addr, Stamp)>)
    requires forall m | m in memos :: m.0 != []
    ensures Rooted(MemoSheets(held, memos))
  {
    if memos != [] {
      assert memos[|memos| - 1] in memos;
      MemoSheetsRooted(held, memos[..|memos| - 1]);
    }
  }

  lemma {:induction false} SheetsRooted(cs: seq<Contribution>)
    ensures Rooted(Sheets(cs))
  {
    if cs != [] {
      SheetsRooted(cs[..|cs| - 1]);
    }
  }

  lemma {:induction false} SeedsRooted(cs: seq<Contribution>)
    ensures Rooted(SeedSheets(cs))
  {
    if cs != [] {
      SeedsRooted(cs[..|cs| - 1]);
    }
  }

  lemma PartsRooted(e: Entry, layers: Layers)
    requires forall m | m in e.memos :: m.0 != []
    ensures Rooted(Parts(e, layers)) && Rooted(LowerSheets(e, layers))
  {
    hide Sheets, MemoSheets, SeedSheets;
    SeedsRooted(e.seeds);
    if e.memo.Some? {
      MemoSheetsRooted(e.memo.value, e.memos);
    }
    if e.lines.Some? && e.lines.value.Native? {
      SheetsRooted(e.lines.value.sources);
    }
  }

  lemma EntryRooted(e: Entry, layers: Layers)
    requires forall m | m in e.memos :: m.0 != []
    ensures Rooted(Overlays(e, layers))
  {
    hide Parts, LowerSheets;
    PartsRooted(e, layers);
  }

  lemma {:induction false} ChainRooted(chain: seq<Entry>, layers: Layers)
    requires forall e, m | e in chain && m in e.memos :: m.0 != []
    ensures Rooted(ChainOverlays(chain, layers))
  {
    if chain != [] {
      hide Overlays;
      assert chain[0] in chain;
      EntryRooted(chain[0], layers);
      ChainRooted(chain[1..], layers);
    }
  }

  // ---- One directory ----------------------------------------------------

  /** The read of one entry by itself: its parts piled, and nothing below. */
  lemma OwnRead(e: Entry, layers: Layers)
    ensures Piled(map[], ChainOverlays([e], layers)) == Piled(map[], Parts(e, layers))
  {
    hide Piled, Parts, LaidOn;
    assert [e][1..] == [] && ChainOverlays([], layers) + Overlays(e, layers) == Overlays(e, layers);
    var own := Piled(map[], Parts(e, layers));
    PiledOne(map[], Sheet(own));
    SheetIsMerge(map[], own);
    MergedOver(own);
  }

  /** One directory's read is a flat rule: the leaves are the put map's, and those of the
      provider's maps, the seeds and the memos piled whose address overlaps no put
      address. */
  lemma OneEntryRead(e: Entry, layers: Layers, a: Addr)
    requires !layers.Source? && e.put.Some? && Stamped(Layer(e.put.value, e.stamps))
    ensures Leaf(Piled(map[], ChainOverlays([e], layers)), a) ==
      if Leaf(e.put.value, a).Some? then Leaf(e.put.value, a)
      else if OverlapsAny(e.stamps, a) then None
      else Leaf(Piled(map[], LowerSheets(e, layers)), a)
  {
    hide LowerSheets, Piled, Stamped;
    var below := Piled(map[], LowerSheets(e, layers));
    var cut := CutTree(below, e.stamps.Keys);
    OwnRead(e, layers);
    EntryLaid(map[], e, layers);
    LowerLaid(map[], e, layers);
    CutTreeIs(below, e.stamps.Keys);
    PutsOverLeaf(below, Layer(e.put.value, e.stamps), cut, a);
  }

  /** So after any run of puts, removals and evictions: a leaf the read gives from the
      maps below the puts is one that no standing put address overlaps. */
  lemma ReadAfterPuts(ls: seq<Layer>, ops: seq<Op>, i: nat, e: Entry, layers: Layers, a: Addr)
    requires Runs(ls, ops) && ls[0] == NO_PUTS && i < |ls|
    requires !layers.Source? && e.put == Some(ls[i].fields) && e.stamps == ls[i].stamps
    ensures Leaf(Piled(map[], ChainOverlays([e], layers)), a) ==
      if Nearest(e.stamps, a).Some? then Leaf(ls[i].fields, a)
      else if OverlapsAny(e.stamps, a) then None
      else Leaf(Piled(map[], LowerSheets(e, layers)), a)
  {
    hide LowerSheets, Piled, ChainOverlays;
    AlwaysStamped(ls, ops, i);
    OneEntryRead(e, layers, a);
    if Nearest(e.stamps, a).Some? {
      assert Overlaps(Nearest(e.stamps, a).value, a);
    }
  }

  // ---- No map is left out -----------------------------------------------

  /** The tree has a leaf at, above or below `a`. */
  ghost predicate Touches(f: Fields, a: Addr) {
    exists b :: Leaf(f, b).Some? && Overlaps(a, b)
  }

  ghost predicate TouchesAny(cs: seq<Contribution>, a: Addr) {
    exists i :: 0 <= i < |cs| && Touches(cs[i].fields, a)
  }

  /** Some map of the provider's touches `a`. */
  ghost predicate LinesTouch(lines: Lines, a: Addr) {
    match lines
    case Native(cs) => TouchesAny(cs, a)
    case Rendered(r) => Touches(r.fields, a)
    case Missing => false
  }

  /** Some memo overlaps `a`, or a put address or a leaf of the put map. */
  ghost predicate NearerTouches(e: Entry, a: Addr) {
    || (exists m :: m in e.memos && Overlaps(m.0, a))
    || OverlapsAny(e.stamps, a)
    || (e.put.Some? && Touches(e.put.value, a))
  }

  lemma UntouchedMerge(f: Fields, g: Fields, a: Addr)
    requires !Touches(f, a) && !Touches(g, a)
    ensures !Touches(Merged(f, g), a)
  {
    if b :| Leaf(Merged(f, g), b).Some? && Overlaps(a, b) {
      MergedLeaf(f, g, b);
    }
  }

  lemma {:induction false} UntouchedSeeds(base: Fields, cs: seq<Contribution>, a: Addr)
    requires !Touches(base, a) && !TouchesAny(cs, a)
    ensures !Touches(Laid(base, cs), a)
  {
    hide Touches, Merged;
    if cs != [] {
      var n := |cs| - 1;
      assert !Touches(cs[n].fields, a);
      assert forall i | 0 <= i < n :: cs[..n][i] == cs[i];
      UntouchedSeeds(base, cs[..n], a);
      UntouchedMerge(Laid(base, cs[..n]), cs[n].fields, a);
    }
  }

  /** A leaf merged over a tree that has none near it. */
  lemma LandsAlone(f: Fields, g: Fields, a: Addr)
    requires !Touches(f, a) && Leaf(g, a).Some?
    ensures Leaf(Merged(f, g), a) == Leaf(g, a)
  {
    MergedLeaf(f, g, a);
    if Lookup(f, a).Some? {
      var b := HeldLeaf(f, a);
    }
  }

  /** And a tree with none near it merged over. */
  lemma StaysAlone(f: Fields, g: Fields, a: Addr)
    requires !Touches(g, a)
    ensures Leaf(Merged(f, g), a) == Leaf(f, a)
  {
    MergedLeaf(f, g, a);
    forall b
      ensures !Shadows(g, b, a)
    {
      assert Leaf(g, b).Some? ==> !Overlaps(a, b);
    }
    assert Overlaps(a, a);
  }

  /** A scalar lands whatever is below it. */
  lemma ScalarLands(f: Fields, g: Fields, a: Addr)
    requires Leaf(g, a).Some? && Leaf(g, a).value.Scalar?
    ensures Leaf(Merged(f, g), a) == Leaf(g, a)
  {
    MergedLeaf(f, g, a);
  }

  /** The leaf of one of some maps laid in order: no later one comes near it, and it is a
      scalar, or none before does either. */
  lemma {:induction false} OneOfSeeds(base: Fields, cs: seq<Contribution>, i: nat, a: Addr)
    requires i < |cs| && Leaf(cs[i].fields, a).Some?
    requires forall j | i < j < |cs| :: !Touches(cs[j].fields, a)
    requires Leaf(cs[i].fields, a).value.Scalar? || (!Touches(base, a) && forall j | 0 <= j < i :: !Touches(cs[j].fields, a))
    ensures Leaf(Laid(base, cs), a) == Leaf(cs[i].fields, a)
  {
    hide Touches, Merged;
    var n := |cs| - 1;
    if i < n {
      OneOfSeeds(base, cs[..n], i, a);
      StaysAlone(Laid(base, cs[..n]), cs[n].fields, a);
    } else if Leaf(cs[n].fields, a).value.Scalar? {
      ScalarLands(Laid(base, cs[..n]), cs[n].fields, a);
    } else {
      forall j | 0 <= j < n
        ensures !Touches(cs[..n][j].fields, a)
      {
        assert cs[..n][j] == cs[j];
      }
      UntouchedSeeds(base, cs[..n], a);
      LandsAlone(Laid(base, cs[..n]), cs[n].fields, a);
    }
  }

  lemma {:induction false} MemosElsewhere(base: Fields, held: Fields, memos: seq<(Addr, Stamp)>, a: Addr)
    requires forall m | m in memos :: m.0 != [] && !Overlaps(m.0, a)
    ensures Leaf(MemosOver(base, held, memos), a) == Leaf(base, a)
  {
    if memos != [] {
      var front, last := memos[..|memos| - 1], memos[|memos| - 1];
      assert last in memos;
      MemosElsewhere(base, held, front, a);
      match Lookup(held, last.0)
      case Some(v) => LeafInsert(MemosOver(base, held, front), last.0, v, a);
      case None =>
    }
  }

  /** Memos and puts that come nowhere near leave a leaf below them as it is. */
  lemma PutsElsewhere(e: Entry, layers: Layers, a: Addr)
    requires (forall m | m in e.memos :: m.0 != []) && !NearerTouches(e, a)
    ensures Leaf(EntryOver(map[], e, layers), a) == Leaf(LowerOver(map[], e, layers), a)
    ensures !layers.Source? ==>
      Leaf(LowerOver(map[], e, layers), a) ==
        Leaf(Laid(if !layers.Put? && e.lines.Some? then LinesOver(map[], e.lines.value) else map[], e.seeds), a)
  {
    hide Merged, Touches, CutTree, Laid, LinesOver, MemosOver;
    var below := if !layers.Put? && e.lines.Some? then LinesOver(map[], e.lines.value) else map[];
    if !layers.Source? {
      if e.memo.Some? {
        MemosElsewhere(Laid(below, e.seeds), e.memo.value, e.memos, a);
      }
      if e.put.Some? {
        var lower := LowerOver(map[], e, layers);
        CutTreeIs(lower, e.stamps.Keys);
        forall d | d in e.stamps.Keys
          ensures !(d <= a)
        {
          assert d in e.stamps;
        }
        StaysAlone(CutTree(lower, e.stamps.Keys), e.put.value, a);
      }
    }
  }

  lemma NothingTouches(a: Addr)
    ensures !Touches(map[], a)
  {
  }

  /** The leaf of a seed that no later seed, no memo and no put comes near is in the
      entry's read, whatever puts it holds elsewhere: if it is a scalar, whatever the
      earlier seeds and the Sources have there, and if they have nothing near it in any
      case. */
  lemma SeedIsRead(e: Entry, layers: Layers, i: nat, a: Addr)
    requires !layers.Source? && i < |e.seeds| && Leaf(e.seeds[i].fields, a).Some?
    requires forall m | m in e.memos :: m.0 != []
    requires (forall j | i < j < |e.seeds| :: !Touches(e.seeds[j].fields, a)) && !NearerTouches(e, a)
    requires Leaf(e.seeds[i].fields, a).value.Scalar? ||
      ((forall j | 0 <= j < i :: !Touches(e.seeds[j].fields, a)) && !(e.lines.Some? && LinesTouch(e.lines.value, a)))
    ensures Leaf(Piled(map[], ChainOverlays([e], layers)), a) == Leaf(e.seeds[i].fields, a)
  {
    hide Touches, NearerTouches, Merged, Piled, ChainOverlays, Parts, Laid, EntryOver, LowerOver, LinesTouch;
    OwnRead(e, layers);
    EntryLaid(map[], e, layers);
    PutsElsewhere(e, layers, a);
    NothingTouches(a);
    if !layers.Put? && e.lines.Some? {
      if !LinesTouch(e.lines.value, a) {
        LinesElsewhere(e.lines.value, a);
      }
      OneOfSeeds(LinesOver(map[], e.lines.value), e.seeds, i, a);
    } else {
      OneOfSeeds(map[], e.seeds, i, a);
    }
  }

  lemma LinesElsewhere(lines: Lines, a: Addr)
    requires !LinesTouch(lines, a)
    ensures !Touches(LinesOver(map[], lines), a)
  {
    hide Touches, Merged;
    NothingTouches(a);
    match lines
    case Native(cs) => UntouchedSeeds(map[], cs, a);
    case Rendered(r) => UntouchedMerge(map[], r.fields, a);
    case Missing =>
  }

  /** And so is the leaf of a Source's map, where the read takes Sources: no Source declared
      later comes near it, and nothing static. */
  lemma SourceIsRead(e: Entry, layers: Layers, i: nat, a: Addr)
    requires !layers.Put? && e.lines.Some? && e.lines.value.Native? && i < |e.lines.value.sources|
    requires Leaf(e.lines.value.sources[i].fields, a).Some?
    requires forall m | m in e.memos :: m.0 != []
    requires forall j | i < j < |e.lines.value.sources| :: !Touches(e.lines.value.sources[j].fields, a)
    requires Leaf(e.lines.value.sources[i].fields, a).value.Scalar? ||
      forall j | 0 <= j < i :: !Touches(e.lines.value.sources[j].fields, a)
    requires !TouchesAny(e.seeds, a) && !NearerTouches(e, a)
    ensures Leaf(Piled(map[], ChainOverlays([e], layers)), a) == Leaf(e.lines.value.sources[i].fields, a)
  {
    hide Touches, NearerTouches, Merged, Piled, ChainOverlays, Parts, Laid, EntryOver;
    OwnRead(e, layers);
    EntryLaid(map[], e, layers);
    PutsElsewhere(e, layers, a);
    NothingTouches(a);
    OneOfSeeds(map[], e.lines.value.sources, i, a);
    SeedsElsewhere(LinesOver(map[], e.lines.value), e.seeds, a);
  }

  lemma {:induction false} SeedsElsewhere(base: Fields, cs: seq<Contribution>, a: Addr)
    requires !TouchesAny(cs, a)
    ensures Leaf(Laid(base, cs), a) == Leaf(base, a)
  {
    hide Touches, Merged;
    if cs != [] {
      var n := |cs| - 1;
      assert !Touches(cs[n].fields, a);
      assert forall i | 0 <= i < n :: cs[..n][i] == cs[i];
      SeedsElsewhere(base, cs[..n], a);
      StaysAlone(Laid(base, cs[..n]), cs[n].fields, a);
    }
  }

  lemma {:induction false} MemoStands(base: Fields, held: Fields, memos: seq<(Addr, Stamp)>, i: nat, a: Addr)
    requires i < |memos| && memos[i].0 != [] && memos[i].0 <= a && Leaf(held, a).Some?
    requires forall j | i < j < |memos| :: memos[j].0 != [] && !Overlaps(memos[j].0, a)
    ensures Leaf(MemosOver(base, held, memos), a) == Leaf(held, a)
  {
    var n := |memos| - 1;
    var below, at := MemosOver(base, held, memos[..n]), memos[n].0;
    if i < n {
      MemoStands(base, held, memos[..n], i, a);
      if Lookup(held, at).Some? {
        LeafInsert(below, at, Lookup(held, at).value, a);
      }
    } else {
      LeafHolds(held, at, a);
      LeafAcross(held, at, a);
      LeafInsert(below, at, Lookup(held, at).value, a);
    }
  }

  /** The leaf of a memo that no later memo and no put comes near is in the entry's read,
      whatever its seeds and Sources hold there. */
  lemma MemoIsRead(e: Entry, layers: Layers, i: nat, a: Addr)
    requires !layers.Source? && e.memo.Some? && i < |e.memos| && e.memos[i].0 <= a && Leaf(e.memo.value, a).Some?
    requires forall m | m in e.memos :: m.0 != []
    requires forall j | i < j < |e.memos| :: !Overlaps(e.memos[j].0, a)
    requires !OverlapsAny(e.stamps, a) && (e.put.Some? ==> !Touches(e.put.value, a))
    ensures Leaf(Piled(map[], ChainOverlays([e], layers)), a) == Leaf(e.memo.value, a)
  {
    hide Touches, Merged, Piled, ChainOverlays, Parts, Laid, CutTree, LinesOver, MemosOver;
    OwnRead(e, layers);
    EntryLaid(map[], e, layers);
    var below := if !layers.Put? && e.lines.Some? then LinesOver(map[], e.lines.value) else map[];
    MemoStands(Laid(below, e.seeds), e.memo.value, e.memos, i, a);
    if e.put.Some? {
      var lower := LowerOver(map[], e, layers);
      CutTreeIs(lower, e.stamps.Keys);
      forall d | d in e.stamps.Keys
        ensures !(d <= a)
      {
        assert d in e.stamps;
      }
      StaysAlone(CutTree(lower, e.stamps.Keys), e.put.value, a);
    }
  }

  // ---- The nearer wins --------------------------------------------------

  /** A scalar that comes of some overlays comes of them over anything. */
  lemma {:induction false} ScalarStands(base: Fields, os: seq<Overlay>, a: Addr)
    requires Rooted(os) && Leaf(Piled(map[], os), a).Some? && Leaf(Piled(map[], os), a).value.Scalar?
    ensures Leaf(Piled(base, os), a) == Leaf(Piled(map[], os), a)
    decreases |os|
  {
    hide Bars, LaidOn, LeafOf;
    if os != [] {
      var front, last := os[..|os| - 1], os[|os| - 1];
      assert last in os;
      LaidLeaf(Piled(map[], front), last, a);
      LaidLeaf(Piled(base, front), last, a);
      if !Decides(Piled(map[], front), last, a) {
        ScalarStands(base, front, a);
      }
    }
  }

  /** What the nearest directory of a chain has to say at an address is what the read says
      there, whatever the farther ones have: its own read's scalar is the answer's. */
  lemma NearerWins(base: Fields, chain: seq<Entry>, layers: Layers, a: Addr)
    requires chain != [] && forall m | m in chain[0].memos :: m.0 != []
    requires var own := Piled(map[], ChainOverlays(chain[..1], layers)); Leaf(own, a).Some? && Leaf(own, a).value.Scalar?
    ensures Leaf(Piled(base, ChainOverlays(chain, layers)), a) == Leaf(Piled(map[], ChainOverlays(chain[..1], layers)), a)
  {
    hide Overlays, Piled, Rooted;
    assert chain[..1][1..] == [] && ChainOverlays([], layers) + Overlays(chain[0], layers) == Overlays(chain[0], layers);
    EntryRooted(chain[0], layers);
    PiledMore(base, ChainOverlays(chain[1..], layers), Overlays(chain[0], layers));
    ScalarStands(Piled(base, ChainOverlays(chain[1..], layers)), Overlays(chain[0], layers), a);
  }
}
