/** The records a put map's stamps give (`note_put_records` of src/cache.rs). The code
    keeps records by text, and starts from each top-level key as it is, unquoted: what it
    notes under such a text need not be the record of a leaf. */
module PutNotes {
  import opened Prelude
  import opened Tree
  import opened Keys
  import opened Puts
  import opened Merge

  const PUT := "put"

  // ---- Records by text --------------------------------------------------

  /** The records under canonical texts, by address, and those under other texts. */
  datatype Notes = Notes(records: Records, odd: map<string, Fresh>)

  function RecordAt(n: Notes, t: string): Option<Fresh> {
    if ReadingOf(t).Canonical? then Get(n.records, ReadingOf(t).addr)
    else if t in n.odd then Some(n.odd[t])
    else None
  }

  /** A record inserted under a text. */
  function WithRecord(n: Notes, t: string, note: Fresh): (m: Notes)
    ensures forall u {:trigger RecordAt(m, u)} :: RecordAt(m, u) == if u == t then Some(note) else RecordAt(n, u)
  {
    if ReadingOf(t).Canonical? then n.(records := n.records[ReadingOf(t).addr := note])
    else n.(odd := n.odd[t := note])
  }

  // ---- The stamp that governs a text ------------------------------------

  /** `put_address_for`: up the parents of a text, the first that is a put address. */
  function PutAddressFor(stamps: map<Addr, Stamp>, t: string): (n: Option<Addr>)
    ensures n.Some? ==> n.value in stamps
    decreases |Segments(t)|
  {
    var r := ReadingOf(t);
    if r.Canonical? && r.addr in stamps then Some(r.addr)
    else
      match Parent(t)
      case None => None
      case Some(up) =>
        assert |Segments(up)| < |Segments(t)| by { ReadsBack(Segments(t)[..|Segments(t)| - 1]); }
        PutAddressFor(stamps, up)
  }

  lemma {:induction false} PutAddressOf(stamps: map<Addr, Stamp>, a: Addr)
    ensures PutAddressFor(stamps, Text(a)) == Nearest(stamps, a)
    decreases |a|
  {
    TextIsCanonical(a);
    ParentIs(a);
    if a != [] {
      PutAddressOf(stamps, a[..|a| - 1]);
    }
  }

  function Governing(stamps: map<Addr, Stamp>, r: Reading): Option<Addr> {
    match r
    case Canonical(a) => Nearest(stamps, a)
    case Loose(a) => if a == [] then None else Nearest(stamps, a[..|a| - 1])
    case Unread => None
  }

  /** A canonical text is governed as its address is; a text that reads as an address
      without being its canonical text, as the address above that one; and one that
      reads as none by no stamp, not even the root's. */
  lemma PutAddressIs(stamps: map<Addr, Stamp>, t: string)
    ensures PutAddressFor(stamps, t) == Governing(stamps, ReadingOf(t))
  {
    match ReadingOf(t)
    case Canonical(a) => PutAddressOf(stamps, a);
    case Loose(a) => PutAddressOf(stamps, a[..|a| - 1]);
    case Unread =>
  }

  /** The record the stamps give under a text. */
  function PutMark(stamps: map<Addr, Stamp>, dir: Dir, t: string): Option<Fresh> {
    match PutAddressFor(stamps, t)
    case Some(n) => Some(Fresh(PUT, dir, stamps[n].written, stamps[n].ttl))
    case None => None
  }

  // ---- The texts of a value's leaves ------------------------------------

  /** `t` is the text of a leaf of `v`, where that of `v` is `text`. */
  ghost predicate NamedFrom(v: Value, text: string, t: string) {
    exists rest :: LeafIn(v, rest).Some? && t == PushAll(text, rest)
  }

  /** The text of a member: pushed below a node, and the key as it is at the top. */
  function KeyText(node: Option<string>, k: Seg): string {
    if node.Some? then Push(node.value, k) else k
  }

  ghost predicate NamedBy(f: Fields, keys: set<Seg>, node: Option<string>, t: string) {
    exists k :: k in keys && k in f && NamedFrom(f[k], KeyText(node, k), t)
  }

  /** Some top-level key's texts have `t` among them. */
  ghost predicate Named(f: Fields, t: string) {
    NamedBy(f, f.Keys, None, t)
  }

  lemma NamedKeys(v: Value, text: string, t: string)
    requires v.Object? && v.fields != map[]
    ensures NamedFrom(v, text, t) <==> NamedBy(v.fields, v.fields.Keys, Some(text), t)
  {
    if NamedFrom(v, text, t) {
      var rest :| LeafIn(v, rest).Some? && t == PushAll(text, rest);
      LeafHead(v.fields, rest);
      assert NamedFrom(v.fields[rest[0]], KeyText(Some(text), rest[0]), t);
    }
    if NamedBy(v.fields, v.fields.Keys, Some(text), t) {
      var k :| k in v.fields && NamedFrom(v.fields[k], KeyText(Some(text), k), t);
      var below :| LeafIn(v.fields[k], below).Some? && t == PushAll(Push(text, k), below);
      var rest := [k] + below;
      assert rest[1..] == below;
      LeafHead(v.fields, rest);
      assert LeafIn(v, rest).Some? && t == PushAll(text, rest);
    }
  }

  lemma NamedLeaf(v: Value, text: string, t: string)
    requires IsLeaf(v)
    ensures NamedFrom(v, text, t) <==> t == text
  {
    assert LeafIn(v, []).Some? && PushAll(text, []) == text;
  }

  lemma NamedOneMore(f: Fields, keys: set<Seg>, node: Option<string>, k: Seg, t: string)
    requires k in f
    ensures NamedBy(f, keys + {k}, node, t) <==> NamedBy(f, keys, node, t) || NamedFrom(f[k], KeyText(node, k), t)
  {
    if NamedBy(f, keys, node, t) {
      var j :| j in keys && j in f && NamedFrom(f[j], KeyText(node, j), t);
      assert j in keys + {k};
    }
    if NamedFrom(f[k], KeyText(node, k), t) {
      assert k in keys + {k};
    }
  }

  // ---- The notes --------------------------------------------------------

  /** `s` is `r` with the record the stamps give under every text of `named` that a
      stamp governs. */
  function Noting(named: bool, mark: Option<Fresh>, before: Option<Fresh>): Option<Fresh> {
    if named && mark.Some? then mark else before
  }

  /** The texts of the members `keys` are noted. */
  ghost predicate KeysNoted(r: Notes, f: Fields, keys: set<Seg>, node: Option<string>, stamps: map<Addr, Stamp>, dir: Dir, s: Notes) {
    forall t {:trigger RecordAt(s, t)} ::
      RecordAt(s, t) == Noting(NamedBy(f, keys, node, t), PutMark(stamps, dir, t), RecordAt(r, t))
  }

  lemma OneKeyNoted(r: Notes, f: Fields, keys: set<Seg>, node: Option<string>, stamps: map<Addr, Stamp>, dir: Dir,
                    s: Notes, k: Seg, u: Notes)
    requires KeysNoted(r, f, keys, node, stamps, dir, s) && k in f
    requires forall t {:trigger RecordAt(u, t)} ::
      RecordAt(u, t) == Noting(NamedFrom(f[k], KeyText(node, k), t), PutMark(stamps, dir, t), RecordAt(s, t))
    ensures KeysNoted(r, f, keys + {k}, node, stamps, dir, u)
  {
    hide RecordAt, PutMark, NamedBy, NamedFrom;
    forall t
      ensures RecordAt(u, t) == Noting(NamedBy(f, keys + {k}, node, t), PutMark(stamps, dir, t), RecordAt(r, t))
    {
      NamedOneMore(f, keys, node, k, t);
      assert RecordAt(s, t) == Noting(NamedBy(f, keys, node, t), PutMark(stamps, dir, t), RecordAt(r, t));
    }
  }

  /** `note_put_records`. */
  method NotePutRecords(r: Notes, stamps: map<Addr, Stamp>, dir: Dir, text: string, value: Value) returns (s: Notes)
    ensures forall t {:trigger RecordAt(s, t)} ::
      RecordAt(s, t) == Noting(NamedFrom(value, text, t), PutMark(stamps, dir, t), RecordAt(r, t))
    ensures stamps == map[] ==> s == r
    decreases value, 1
  {
    hide RecordAt, PutMark, NamedBy, NamedFrom;
    if value.Object? && value.fields != map[] {
      assert Object(value.fields) == value;
      s := NoteKeys(r, stamps, dir, Some(text), value.fields);
      forall t
        ensures NamedFrom(value, text, t) <==> NamedBy(value.fields, value.fields.Keys, Some(text), t)
      {
        NamedKeys(value, text, t);
      }
    } else {
      forall t
        ensures NamedFrom(value, text, t) <==> t == text
      {
        NamedLeaf(value, text, t);
      }
      var mark := PutMark(stamps, dir, text);
      assert stamps == map[] ==> mark.None? by { NoStampsNoMark(stamps, dir, text); }
      s := if mark.Some? then WithRecord(r, text, mark.value) else r;
    }
  }

  lemma NoStampsNoMark(stamps: map<Addr, Stamp>, dir: Dir, t: string)
    ensures stamps == map[] ==> PutMark(stamps, dir, t).None?
  {
  }

  /** Its loop over the members of a node, and that of `merge_puts` over the top. */
  method NoteKeys(r: Notes, stamps: map<Addr, Stamp>, dir: Dir, node: Option<string>, f: Fields) returns (s: Notes)
    ensures KeysNoted(r, f, f.Keys, node, stamps, dir, s)
    ensures stamps == map[] ==> s == r
    decreases Object(f), 0
  {
    var todo := f.Keys;
    s := r;
    assert f.Keys - todo == {};
    while todo != {}
      invariant todo <= f.Keys && KeysNoted(r, f, f.Keys - todo, node, stamps, dir, s)
      invariant stamps == map[] ==> s == r
      decreases |todo|
    {
      hide KeysNoted, RecordAt, PutMark;
      var k :| k in todo;
      var u := NotePutRecords(s, stamps, dir, KeyText(node, k), f[k]);
      OneKeyNoted(r, f, f.Keys - todo, node, stamps, dir, s, k, u);
      assert f.Keys - todo + {k} == f.Keys - (todo - {k});
      s := u;
      todo := todo - {k};
    }
    assert f.Keys - todo == f.Keys;
  }

  // ---- Where the notes land ---------------------------------------------

  /** The text is the canonical text of a leaf. */
  predicate TextLands(f: Fields, t: string) {
    ReadingOf(t).Canonical? && Leaf(f, ReadingOf(t).addr).Some?
  }

  /** Every text the put map's keys name, and a stamp governs, is that of a put leaf. */
  ghost predicate NamesLand(l: Layer) {
    forall t {:trigger Named(l.fields, t)} | Named(l.fields, t) && PutAddressFor(l.stamps, t).Some? :: TextLands(l.fields, t)
  }

  /** The texts of a key that is not empty start with the key. */
  lemma NamedIs(f: Fields, t: string) returns (k: Seg, rest: Addr)
    requires Named(f, t)
    ensures k in f && LeafIn(f[k], rest).Some? && t == PushAll(k, rest)
    ensures k != "" ==> t == k + Suffix(rest)
  {
    k :| k in f && NamedFrom(f[k], k, t);
    rest :| LeafIn(f[k], rest).Some? && t == PushAll(k, rest);
    if k != "" {
      PushAllIs(k, rest);
    }
  }

  lemma NamedHere(f: Fields, k: Seg, rest: Addr)
    requires k in f && LeafIn(f[k], rest).Some?
    ensures Named(f, PushAll(k, rest))
  {
    assert NamedFrom(f[k], KeyText(None, k), PushAll(k, rest));
  }

  /** Under a key that needs no quotes, the text a leaf is noted under is its own. */
  lemma BareKeyNames(f: Fields, k: Seg, rest: Addr)
    requires k in f && LeafIn(f[k], rest).Some? && Bare(k)
    ensures PushAll(k, rest) == Text([k] + rest) && TextLands(f, Text([k] + rest)) && Named(f, Text([k] + rest))
  {
    var a := [k] + rest;
    assert a[0] == k && a[1..] == rest;
    TextIs(a);
    PushAllIs(k, rest);
    BareQuote(k);
    TextIsCanonical(a);
    LeafHead(f, a);
    NamedHere(f, k, rest);
  }

  /** Where no top-level key needs quotes, the texts noted are those of the leaves. */
  lemma PlainKeysLand(l: Layer)
    requires forall k | k in l.fields :: Bare(k)
    ensures NamesLand(l)
    ensures forall t {:trigger Named(l.fields, t)} :: Named(l.fields, t) <==> TextLands(l.fields, t)
  {
    forall t
      ensures Named(l.fields, t) <==> TextLands(l.fields, t)
    {
      if Named(l.fields, t) {
        var k, rest := NamedIs(l.fields, t);
        BareKeyNames(l.fields, k, rest);
      }
      if TextLands(l.fields, t) {
        var a := ReadingOf(t).addr;
        LeafHead(l.fields, a);
        BareKeyNames(l.fields, a[0], a[1..]);
        assert [a[0]] + a[1..] == a;
      }
    }
  }

  /** Where no top-level key is empty or starts with a bracket, a leaf is noted under its
      own text if and only if its first segment needs no quotes. */
  lemma NotedExactly(f: Fields, a: Addr)
    requires Leaf(f, a).Some? && forall k | k in f :: k != "" && k[0] != '['
    ensures Named(f, Text(a)) <==> Bare(a[0])
  {
    LeafHead(f, a);
    TextIs(a);
    if Bare(a[0]) {
      BareKeyNames(f, a[0], a[1..]);
      assert [a[0]] + a[1..] == a;
    } else {
      assert Text(a)[0] == '[';
      NamedFront(f, Text(a));
    }
  }

  lemma NamedFront(f: Fields, t: string)
    requires forall k | k in f :: k != "" && k[0] != '['
    ensures Named(f, t) ==> t != "" && t[0] != '['
  {
    if Named(f, t) {
      var k, rest := NamedIs(f, t);
    }
  }

  // ---- Keys whose notes go elsewhere ------------------------------------

  /** A root put. */
  function RootPut(f: Fields, stamp: Stamp): Layer {
    Write(NO_PUTS, [], Object(f), stamp)
  }

  /** A root put of scalars notes each key as it is, the root's stamp governing it unless
      it reads as no address. */
  lemma FlatPut(f: Fields, stamp: Stamp, k: Seg)
    requires k in f && forall j | j in f :: f[j].Scalar?
    ensures var l := RootPut(f, stamp);
      && l.fields == f && Leaf(f, [k]).Some?
      && (forall t {:trigger Named(f, t)} :: Named(f, t) <==> t in f)
      && PutAddressFor(l.stamps, k) == if ReadingOf(k).Unread? then None else Some([])
  {
    hide ReadingOf, PutAddressFor, PushAll, Named, RootPut;
    RootPutIs(f, stamp);
    forall t
      ensures Named(f, t) <==> t in f
    {
      FlatNames(f, t);
    }
    RootGoverns(map[[] := stamp], k);
  }

  lemma RootPutIs(f: Fields, stamp: Stamp)
    requires f != map[]
    ensures RootPut(f, stamp) == Layer(f, map[[] := stamp])
  {
    assert Object(f) != EMPTY;
  }

  lemma RootGoverns(stamps: map<Addr, Stamp>, t: string)
    requires stamps.Keys == {[]}
    ensures PutAddressFor(stamps, t) == if ReadingOf(t).Unread? then None else Some([])
  {
    hide ReadingOf, PutAddressFor;
    PutAddressIs(stamps, t);
    assert ReadingOf(t).Loose? ==> ReadingOf(t).addr != [];
    forall a: Addr
      ensures Nearest(stamps, a) == Some([])
    {
      NearestIs(stamps, a, []);
    }
  }

  lemma FlatNames(f: Fields, t: string)
    requires forall j | j in f :: f[j].Scalar?
    ensures Named(f, t) <==> t in f
  {
    forall j | j in f
      ensures NamedFrom(f[j], KeyText(None, j), t) <==> t == j
    {
      NamedLeaf(f[j], j, t);
    }
  }

  /** The name of a key that holds a dot is the text of another address. The record
      strays to where no leaf is, and the leaf is not noted. */
  lemma DottedKeyStrays(stamp: Stamp) returns (l: Layer)
    ensures l == RootPut(map["a.b" := Scalar("1")], stamp)
    ensures Leaf(l.fields, ["a.b"]).Some? && !Named(l.fields, Text(["a.b"]))
    ensures ReadingOf("a.b") == Canonical(["a", "b"]) && Leaf(l.fields, ["a", "b"]).None?
    ensures Named(l.fields, "a.b") && PutAddressFor(l.stamps, "a.b") == Some([]) && !NamesLand(l)
  {
    hide RootPut, Named, PutAddressFor;
    l := RootPut(map["a.b" := Scalar("1")], stamp);
    FlatPut(map["a.b" := Scalar("1")], stamp, "a.b");
    DottedReads();
    assert !("a" in l.fields);
  }

  lemma DottedReads()
    ensures ReadingOf("a.b") == Canonical(["a", "b"]) && Text(["a.b"]) != "a.b"
  {
    TextIs(["a.b"]);
    assert !Bare("a.b") by { assert EndsBare("a.b"[1]); }
    TextIs(["a", "b"]);
    assert Suffix(["b"]) == ".b" by { assert Suffix(["b"][1..]) == ""; }
    assert ["a", "b"][1..] == ["b"];
    assert Text(["a", "b"]) == "a.b";
    TextIsCanonical(["a", "b"]);
  }

  /** A key in brackets may read as the address of a leaf without being its text. The
      record goes under a text that is no leaf's, though every name reads as a leaf. */
  lemma BracketKeyStrays(stamp: Stamp) returns (l: Layer)
    ensures l == RootPut(map["[0]" := Scalar("1"), "0" := Scalar("2")], stamp)
    ensures ReadingOf("[0]") == Loose(["0"]) && Leaf(l.fields, ["0"]).Some?
    ensures Named(l.fields, "[0]") && PutAddressFor(l.stamps, "[0]") == Some([]) && !NamesLand(l)
  {
    hide RootPut, Named, PutAddressFor;
    var f: Fields := map["[0]" := Scalar("1"), "0" := Scalar("2")];
    l := RootPut(f, stamp);
    FlatPut(f, stamp, "[0]");
    FlatPut(f, stamp, "0");
    IndexReads();
  }

  lemma IndexReads()
    ensures ReadingOf("[0]") == Loose(["0"])
  {
    var t := "[0]";
    assert t[1..] == "0]" && "0]"[..1] == "0" && "0]"[1..] == "]" && "]"[1..] == "";
    assert DigitsLen("0") == 1 && Decimal("0") == 0;
    assert ParseIndex("0]") == Some(("0", "]"));
    assert ParseBracket("0]") == Some(("0", ""));
    assert ParseFront(t, true) == Some(("0", ""));
    assert Parse(t, true) == Join(["0"], Parse("", false));
    assert '[' in t;
    TextIs(["0"]);
    assert Text(["0"]) == "0" by { assert Suffix(["0"][1..]) == ""; }
  }

  /** A key that reads as no address is not noted at all. */
  lemma UnreadKeyIsNotNoted(stamp: Stamp) returns (l: Layer)
    ensures l == RootPut(map["a]b" := Scalar("1")], stamp)
    ensures ReadingOf("a]b") == Unread && PutAddressFor(l.stamps, "a]b") == None
    ensures Leaf(l.fields, ["a]b"]).Some? && !Named(l.fields, Text(["a]b"])) && NamesLand(l)
  {
    hide RootPut, Named, PutAddressFor;
    l := RootPut(map["a]b" := Scalar("1")], stamp);
    FlatPut(map["a]b" := Scalar("1")], stamp, "a]b");
    StrayBracketReads();
    TextIs(["a]b"]);
    assert !Bare("a]b") by { assert EndsBare("a]b"[1]); }
  }

  lemma StrayBracketReads()
    ensures ReadingOf("a]b") == Unread
  {
    var t := "a]b";
    assert t[1..] == "]b" && BareLen("]b") == 0 && BareLen(t) == 1 && t[..1] == "a";
    assert ParseFront(t, true) == Some(("a", "]b"));
    assert ParseFront("]b", false) == None && Parse("]b", false) == None;
    assert ']' in t;
    TextOfRoot();
  }

  /** A key that reads as the address of another's leaf does not note that leaf. */
  lemma LooseKeyNotesNoLeaf(stamp: Stamp) returns (l: Layer)
    ensures l == RootPut(map["." := Scalar("1"), "[\".\"]" := Scalar("2")], stamp)
    ensures ReadingOf("[\".\"]") == Loose(["."])
    ensures Leaf(l.fields, ["."]).Some? && !Named(l.fields, Text(["."]))
  {
    hide RootPut, Named, PutAddressFor, ReadingOf, Text;
    var f: Fields := map["." := Scalar("1"), "[\".\"]" := Scalar("2")];
    l := RootPut(f, stamp);
    FlatPut(f, stamp, ".");
    QuotedDotReads();
    assert "['.']"[1] == '\'' && "[\".\"]"[1] == '\"';
  }

  lemma QuotedDotReads()
    ensures ReadingOf("[\".\"]") == Loose(["."])
    ensures Text(["."]) == "['.']"
  {
    var t := "[\".\"]";
    var q := '\"';
    assert "\"]"[1..] == "]" && ParseQuoted("\"]", q) == Some(("", "]"));
    assert ".\"]"[1..] == "\"]";
    assert ParseQuoted(".\"]", q) == Some((['.'] + "", "]")) && ['.'] + "" == ".";
    assert t[1..] == "\".\"]" && t[1..][1..] == ".\"]" && "]"[1..] == "";
    assert ParseFront(t, true) == Some((".", ""));
    assert Parse(t, true) == Join(["."], Parse("", false));
    assert '[' in t;
    QuotedDot();
  }

  lemma QuotedDot()
    ensures Text(["."]) == "['.']"
  {
    TextIs(["."]);
    assert !Bare(".") by { assert EndsBare("."[0]); }
    QuoteIs(".");
    assert "."[1..] == "" && Escaped(".") == ".";
    assert Suffix(["."][1..]) == "";
  }
}
