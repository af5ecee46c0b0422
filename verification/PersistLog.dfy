/** Persisted puts (src/persist.rs): the store keeps a compacted log of the puts
    made with `--persist`, and a restart replays it. The store is a value here, as
    the lemmas need it, and the class `PutStore` below changes it in place. */
module PersistLog {
  import opened Prelude
  import opened Tree
  import opened Puts

  type Dir = Option<string>

  /** One persisted put: its key (the namespace, then the node), its directory, its
      value, and when a ttl'd one expires, in milliseconds. */
  datatype Persisted = Persisted(key: Addr, dir: Dir, data: Value, expires: Option<nat>)

  /** A put the daemon takes: it names a namespace, and at the root of one its value
      is an object. */
  type Entry = e: Persisted | e.key != [] && PutOk(e.key[1..], e.data)
    witness Persisted(["ns"], None, EMPTY, None)

  type Log = seq<Entry>

  /** `Persisted::at_or_below`. */
  predicate AtOrUnder(e: Persisted, key: Addr, dir: Dir) {
    e.dir == dir && key <= e.key
  }

  // ---- The store's list -------------------------------------------------

  /** The entries of `log` that are neither at `key` in `dir` nor below it. */
  function Outside(log: Log, key: Addr, dir: Dir): Log {
    if log == [] then []
    else
      var last := log[|log| - 1];
      Outside(log[..|log| - 1], key, dir) + if AtOrUnder(last, key, dir) then [] else [last]
  }

  /** `record`: what stood at the address or below it goes, and `kept` is last. */
  function Recorded(log: Log, key: Addr, dir: Dir, kept: Option<Entry>): Log {
    Outside(log, key, dir) + if kept.Some? then [kept.value] else []
  }

  /** `expire`: the entry of exactly this address goes. */
  function Expired(log: Log, key: Addr, dir: Dir): Log {
    if log == [] then []
    else
      var last := log[|log| - 1];
      Expired(log[..|log| - 1], key, dir) + if last.key == key && last.dir == dir then [] else [last]
  }

  /** The list after recording each entry of `log` as it is put. */
  function Compacted(log: Log): Log {
    if log == [] then []
    else
      var last := log[|log| - 1];
      Recorded(Compacted(log[..|log| - 1]), last.key, last.dir, Some(last))
  }

  // ---- What a log means -------------------------------------------------

  /** A put of `entry`, and the stamp it was given. */
  datatype Landed = Landed(entry: Entry, stamp: Stamp)

  /** The cache entry a put lands in: its namespace and its directory. */
  type Place = (Seg, Dir)

  function PlaceOf(e: Entry): Place {
    (e.key[0], e.dir)
  }

  /** The puts landed in turn, as one place sees them: its put layer. */
  function LayerAt(puts: seq<Landed>, at: Place): Layer {
    if puts == [] then NO_PUTS
    else
      var last := puts[|puts| - 1];
      var before := LayerAt(puts[..|puts| - 1], at);
      if PlaceOf(last.entry) == at then Write(before, last.entry.key[1..], last.entry.data, last.stamp) else before
  }

  function Entries(puts: seq<Landed>): Log {
    if puts == [] then [] else Entries(puts[..|puts| - 1]) + [puts[|puts| - 1].entry]
  }

  /** The address governing the leaf at `a`, where there is a leaf. */
  function Governs(l: Layer, a: Addr): Option<Addr> {
    if Leaf(l.fields, a).Some? then Nearest(l.stamps, a) else None
  }

  /** At `a` the two layers hold the same leaf, under the stamp of the same put. */
  predicate AgreeAt(l: Layer, m: Layer, a: Addr) {
    Leaf(l.fields, a) == Leaf(m.fields, a) && Governs(l, a) == Governs(m, a)
  }

  /** The layers agree wherever no address overlaps `node`. */
  ghost predicate AgreeBut(l: Layer, m: Layer, node: Addr) {
    forall a {:trigger AgreeAt(l, m, a)} | !Overlaps(a, node) :: AgreeAt(l, m, a)
  }

  ghost predicate Agree(l: Layer, m: Layer) {
    l.fields == m.fields && forall a {:trigger Governs(l, a)} :: Governs(l, a) == Governs(m, a)
  }

  lemma {:induction false} LayerStamped(puts: seq<Landed>, at: Place)
    ensures Stamped(LayerAt(puts, at))
  {
    if puts == [] {
      forall a
        ensures Leaf(NO_PUTS.fields, a).None?
      {
      }
    } else {
      var last := puts[|puts| - 1];
      LayerStamped(puts[..|puts| - 1], at);
      WriteStamped(LayerAt(puts[..|puts| - 1], at), last.entry.key[1..], last.entry.data, last.stamp);
    }
  }

  /** What a put leaves at `a`, in terms of what stood there. */
  lemma WriteAt(l: Layer, node: Addr, value: Value, stamp: Stamp, a: Addr)
    requires Stamped(l) && PutOk(node, value) && a != []
    ensures var v := Write(l, node, value, stamp);
      && Leaf(v.fields, a) ==
           (if node <= a then LeafIn(value, a[|node|..]) else if a < node then None else Leaf(l.fields, a))
      && Governs(v, a) ==
           (if node <= a then (if LeafIn(value, a[|node|..]).Some? then Some(node) else None)
            else if a < node then None else Governs(l, a))
  {
    WriteStates(l, node, value, stamp, a);
    if Leaf(Write(l, node, value, stamp).fields, a).Some? {
      WriteNearest(l, node, value, stamp, a);
    }
  }

  /** The same put on layers that agree away from `but` leaves them agreeing there. */
  lemma SamePutAgrees(l: Layer, m: Layer, but: Addr, node: Addr, value: Value, s: Stamp, t: Stamp)
    requires Stamped(l) && Stamped(m) && AgreeBut(l, m, but) && PutOk(node, value)
    ensures AgreeBut(Write(l, node, value, s), Write(m, node, value, t), but)
  {
    var v, w := Write(l, node, value, s), Write(m, node, value, t);
    forall a | !Overlaps(a, but)
      ensures AgreeAt(v, w, a)
    {
      assert AgreeAt(l, m, a);
      WriteAt(l, node, value, s, a);
      WriteAt(m, node, value, t, a);
    }
  }

  /** A put at or below `but` changes nothing away from `but`. */
  lemma PutBelowAgrees(l: Layer, m: Layer, but: Addr, node: Addr, value: Value, s: Stamp)
    requires Stamped(l) && Stamped(m) && AgreeBut(l, m, but) && PutOk(node, value) && but <= node
    ensures AgreeBut(l, Write(m, node, value, s), but)
  {
    var w := Write(m, node, value, s);
    forall a | !Overlaps(a, but)
      ensures AgreeAt(l, w, a)
    {
      assert AgreeAt(l, m, a);
      WriteAt(m, node, value, s, a);
    }
  }

  /** The same put at `node` on layers that agree away from it makes them one. */
  lemma PutCloses(l: Layer, m: Layer, node: Addr, value: Value, s: Stamp, t: Stamp)
    requires Stamped(l) && Stamped(m) && AgreeBut(l, m, node) && PutOk(node, value)
    ensures Agree(Write(l, node, value, s), Write(m, node, value, t))
  {
    var v, w := Write(l, node, value, s), Write(m, node, value, t);
    forall a
      ensures AgreeAt(v, w, a)
    {
      if a != [] {
        if !Overlaps(a, node) {
          assert AgreeAt(l, m, a);
        }
        WriteAt(l, node, value, s, a);
        WriteAt(m, node, value, t, a);
      }
    }
    SameTree(v, w);
  }

  lemma SameTree(l: Layer, m: Layer)
    requires forall a :: AgreeAt(l, m, a)
    ensures Agree(l, m)
  {
    forall a
      ensures Leaf(l.fields, a) == Leaf(m.fields, a) && Governs(l, a) == Governs(m, a)
    {
      assert AgreeAt(l, m, a);
    }
    TreeIsItsLeaves(l.fields, m.fields);
  }

  lemma AgreedAt(l: Layer, m: Layer, a: Addr)
    requires Agree(l, m)
    ensures AgreeAt(l, m, a)
  {
    assert Governs(l, a) == Governs(m, a);
  }

  // ---- Dropping what a later put replaces -------------------------------

  /** Landings of the entries left outside an address say, away from it, what all
      the landings say. */
  lemma {:induction false} DroppedSaysTheSame(some: seq<Landed>, all: seq<Landed>, key: Addr, dir: Dir)
    requires key != [] && Entries(some) == Outside(Entries(all), key, dir)
    ensures AgreeBut(LayerAt(some, (key[0], dir)), LayerAt(all, (key[0], dir)), key[1..])
    decreases |all|
  {
    var at := (key[0], dir);
    if all == [] {
      EntriesLength(some);
    } else {
      var front, last := all[..|all| - 1], all[|all| - 1];
      LayerStamped(front, at);
      if AtOrUnder(last.entry, key, dir) {
        LayerStamped(some, at);
        DroppedSaysTheSame(some, front, key, dir);
        PutBelowAgrees(LayerAt(some, at), LayerAt(front, at), key[1..], last.entry.key[1..], last.entry.data, last.stamp);
      } else {
        var most, end := LastEntry(some, Outside(Entries(front), key, dir), last.entry);
        LayerStamped(most, at);
        DroppedSaysTheSame(most, front, key, dir);
        if PlaceOf(last.entry) == at {
          SamePutAgrees(LayerAt(most, at), LayerAt(front, at), key[1..], last.entry.key[1..], last.entry.data, end.stamp, last.stamp);
        }
      }
    }
  }

  lemma {:induction false} EntriesLength(puts: seq<Landed>)
    ensures |Entries(puts)| == |puts|
    ensures forall i | 0 <= i < |puts| :: Entries(puts)[i] == puts[i].entry
  {
    if puts != [] {
      EntriesLength(puts[..|puts| - 1]);
    }
  }

  lemma LastEntry(puts: seq<Landed>, log: Log, e: Entry) returns (front: seq<Landed>, last: Landed)
    requires Entries(puts) == log + [e]
    ensures puts == front + [last] && last.entry == e && Entries(front) == log && front == puts[..|puts| - 1]
  {
    EntriesLength(puts);
    front, last := puts[..|puts| - 1], puts[|puts| - 1];
    assert Entries(front) == (log + [e])[..|log|];
  }

  /** Elsewhere, dropping the entries of one place changes nothing. */
  lemma {:induction false} ElsewhereTheSame(some: seq<Landed>, all: seq<Landed>, key: Addr, dir: Dir, at: Place)
    requires key != [] && Entries(some) == Outside(Entries(all), key, dir) && at != (key[0], dir)
    ensures Agree(LayerAt(some, at), LayerAt(all, at))
    decreases |all|
  {
    if all == [] {
      EntriesLength(some);
    } else {
      var front, last := all[..|all| - 1], all[|all| - 1];
      if AtOrUnder(last.entry, key, dir) {
        assert PlaceOf(last.entry) == (key[0], dir);
        ElsewhereTheSame(some, front, key, dir, at);
      } else {
        var most, end := LastEntry(some, Outside(Entries(front), key, dir), last.entry);
        ElsewhereTheSame(most, front, key, dir, at);
        SameEntryAgrees(most, front, end, last, at);
      }
    }
  }

  /** Landing one entry on layers that agree leaves them agreeing. */
  lemma SameEntryAgrees(some: seq<Landed>, all: seq<Landed>, s: Landed, t: Landed, at: Place)
    requires Agree(LayerAt(some, at), LayerAt(all, at)) && s.entry == t.entry
    ensures Agree(LayerAt(some + [s], at), LayerAt(all + [t], at))
  {
    assert (some + [s])[..|some|] == some && (all + [t])[..|all|] == all;
    if PlaceOf(s.entry) == at {
      var l, m, node := LayerAt(some, at), LayerAt(all, at), s.entry.key[1..];
      LayerStamped(some, at);
      LayerStamped(all, at);
      forall a | !Overlaps(a, node)
        ensures AgreeAt(l, m, a)
      {
        AgreedAt(l, m, a);
      }
      PutCloses(l, m, node, s.entry.data, s.stamp, t.stamp);
    }
  }

  /** Landings `some` of the log that recording `last` leaves, and then `last`
      itself, mean what all the landings and `last` mean. */
  lemma RecordingMeansTheSame(some: seq<Landed>, all: seq<Landed>, s: Landed, t: Landed, at: Place)
    requires s.entry == t.entry
    requires Entries(some) == Outside(Entries(all), t.entry.key, t.entry.dir)
    ensures Agree(LayerAt(some + [s], at), LayerAt(all + [t], at))
  {
    var e := t.entry;
    if PlaceOf(e) == at {
      assert (some + [s])[..|some|] == some && (all + [t])[..|all|] == all;
      LayerStamped(some, at);
      LayerStamped(all, at);
      DroppedSaysTheSame(some, all, e.key, e.dir);
      PutCloses(LayerAt(some, at), LayerAt(all, at), e.key[1..], e.data, s.stamp, t.stamp);
    } else {
      ElsewhereTheSame(some, all, e.key, e.dir, at);
      SameEntryAgrees(some, all, s, t, at);
    }
  }

  // ---- Compaction keeps the meaning -------------------------------------

  /** Some landings of `log`: the stamps are free. */
  function Land(log: Log, stamp: Stamp): (puts: seq<Landed>)
    ensures Entries(puts) == log && |puts| == |log|
  {
    if log == [] then []
    else
      var front := Land(log[..|log| - 1], stamp);
      var puts := front + [Landed(log[|log| - 1], stamp)];
      assert puts[..|puts| - 1] == front;
      puts
  }

  lemma AgreeWithItself(l: Layer)
    ensures Agree(l, l)
  {
  }

  lemma AgreeTransitive(k: Layer, l: Layer, m: Layer)
    requires Agree(k, l) && Agree(l, m)
    ensures Agree(k, m)
  {
  }

  /** For every sequence of persisted puts and every place, replaying the entries
      the store is left with rebuilds the put tree the whole sequence built, with
      every leaf under the stamp of the put that stated it. */
  lemma {:induction false} ReplayRebuilds(history: seq<Landed>, replay: seq<Landed>, at: Place)
    requires Entries(replay) == Compacted(Entries(history))
    ensures Agree(LayerAt(replay, at), LayerAt(history, at))
    decreases |history|
  {
    hide Agree, LayerAt;
    if history == [] {
      EntriesLength(replay);
      AgreeWithItself(LayerAt([], at));
    } else {
      var front, last := history[..|history| - 1], history[|history| - 1];
      var e := last.entry;
      assert front + [last] == history;
      var kept := Compacted(Entries(front));
      var some, end := LastEntry(replay, Outside(kept, e.key, e.dir), e);
      var middle := Land(kept, last.stamp);
      ReplayRebuilds(front, middle, at);
      RecordingMeansTheSame(some, middle, end, last, at);
      SameEntryAgrees(middle, front, last, last, at);
      AgreeTransitive(LayerAt(replay, at), LayerAt(middle + [last], at), LayerAt(history, at));
    }
  }

  // ---- The stamps a replay leaves ---------------------------------------

  /** A put of one member of the object at `x`, the only thing the layer holds. */
  lemma MemberPut(l: Layer, m: Fields, y: Seg, text: string, s: Stamp)
    requires l.fields == map["x" := Object(m)]
    ensures var v := Write(l, ["x", y], Scalar(text), s);
      && v.fields == map["x" := Object(m[y := Scalar(text)])]
      && (["x"] in v.stamps <==> ["x"] in l.stamps && (m - {y} != map[] || m == map[]))
  {
    var x, node := ["x"], ["x", y];
    assert node[1..] == [y] && node[0] == "x";
    assert Members(l.fields, "x") == m;
    assert Lookup(l.fields, node) == if y in m then Some(m[y]) else None;
    var rest := Without(l.fields, node);
    if y in m {
      assert Remove(m, [y]) == m - {y};
      assert rest == if m - {y} == map[] then map[] else map["x" := Object(m - {y})];
    } else {
      assert rest == l.fields && m - {y} == m;
    }
    assert (m - {y})[y := Scalar(text)] == m[y := Scalar(text)];
    assert Insert(Members(rest, "x"), [y], Scalar(text)) == m[y := Scalar(text)];
    assert !AtOrBelow(x, node) && !InTheWay(rest, x, node);
    assert Holds(rest, x) <==> "x" in rest;
  }

  function PutAt(node: Addr, data: Value, s: Stamp): Landed
    requires node != []
  {
    Landed(Persisted(["p"] + node, None, data, None), s)
  }

  lemma OneMore(puts: seq<Landed>, node: Addr, data: Value, s: Stamp)
    requires node != []
    ensures LayerAt(puts + [PutAt(node, data, s)], ("p", None)) == Write(LayerAt(puts, ("p", None)), node, data, s)
    ensures Entries(puts + [PutAt(node, data, s)]) == Entries(puts) + [PutAt(node, data, s).entry]
  {
    var last := PutAt(node, data, s);
    assert (puts + [last])[..|puts|] == puts && (["p"] + node)[1..] == node;
  }

  lemma OnePut(data: Value, s: Stamp)
    ensures LayerAt([PutAt(["x"], data, s)], ("p", None)) == Layer(map["x" := data], map[["x"] := s])
    ensures Entries([PutAt(["x"], data, s)]) == [PutAt(["x"], data, s).entry]
  {
    OneMore([], ["x"], data, s);
    assert [] + [PutAt(["x"], data, s)] == [PutAt(["x"], data, s)];
  }

  lemma CompactNone()
    ensures Compacted([]) == [] && forall key, dir :: Outside([], key, dir) == []
  {
  }

  lemma CompactOne(log: Log, e: Entry)
    ensures Compacted(log + [e]) == Outside(Compacted(log), e.key, e.dir) + [e]
  {
    assert (log + [e])[..|log|] == log;
  }

  lemma OutsideOne(log: Log, e: Entry, key: Addr, dir: Dir)
    ensures Outside(log + [e], key, dir) == Outside(log, key, dir) + if AtOrUnder(e, key, dir) then [] else [e]
  {
    assert (log + [e])[..|log|] == log;
  }

  /** An empty object put at `x`, then its member `y` put once for each of `texts`. */
  function MemberPuts(texts: seq<string>, s: Stamp): seq<Landed> {
    if texts == [] then [PutAt(["x"], EMPTY, s)]
    else MemberPuts(texts[..|texts| - 1], s) + [PutAt(["x", "y"], Scalar(texts[|texts| - 1]), s)]
  }

  /** The second put of the member empties `x` on its way, and so unstamps it. */
  lemma {:induction false} MemberPutsUnstamp(texts: seq<string>, s: Stamp)
    ensures var l := LayerAt(MemberPuts(texts, s), ("p", None));
      && (["x"] in l.stamps <==> |texts| < 2)
      && l.fields == map["x" := Object(if texts == [] then map[] else map["y" := Scalar(texts[|texts| - 1])])]
  {
    hide Write, LayerAt;
    var at: Place := ("p", None);
    if texts == [] {
      OnePut(EMPTY, s);
    } else {
      var front, text := texts[..|texts| - 1], texts[|texts| - 1];
      MemberPutsUnstamp(front, s);
      OneMore(MemberPuts(front, s), ["x", "y"], Scalar(text), s);
      var m: Fields := if front == [] then map[] else map["y" := Scalar(front[|front| - 1])];
      assert m - {"y"} == map[] && m["y" := Scalar(text)] == map["y" := Scalar(text)];
      MemberPut(LayerAt(MemberPuts(front, s), at), m, "y", text, s);
    }
  }

  lemma CompactThree(x: Entry, d: Entry, e: Entry)
    requires !AtOrUnder(x, d.key, d.dir) && !AtOrUnder(x, e.key, e.dir) && AtOrUnder(d, e.key, e.dir)
    ensures Compacted([x, d, e]) == [x, e]
  {
    hide Compacted, Outside;
    CompactNone();
    CompactOne([], x);
    CompactOne([x], d);
    CompactOne([x, d], e);
    OutsideOne([], x, d.key, d.dir);
    OutsideOne([x], d, e.key, e.dir);
    OutsideOne([], x, e.key, e.dir);
    assert [x] + [d] == [x, d] && [x, d] + [e] == [x, d, e] && [] + [x] == [x];
  }

  lemma MemberEntries(s: Stamp)
    ensures var x, d, e := PutAt(["x"], EMPTY, s).entry, PutAt(["x", "y"], Scalar("1"), s).entry, PutAt(["x", "y"], Scalar("2"), s).entry;
      Entries(MemberPuts(["1", "2"], s)) == [x, d, e] && Entries(MemberPuts(["2"], s)) == [x, e]
  {
    assert ["1", "2"][..1] == ["1"] && ["1"][..0] == [] && ["2"][..0] == [];
    OnePut(EMPTY, s);
    OneMore(MemberPuts([], s), ["x", "y"], Scalar("1"), s);
    OneMore(MemberPuts(["1"], s), ["x", "y"], Scalar("2"), s);
    OneMore(MemberPuts([], s), ["x", "y"], Scalar("2"), s);
  }

  /** The stamps may differ, and with them what a read hides of the maps below. A replay
      may keep one the history dropped: a member of an empty object put twice empties
      the object on its way, and in the replay it is put once. */
  lemma ReplayMayKeepAStamp(s: Stamp) returns (history: seq<Landed>, replay: seq<Landed>)
    ensures Entries(replay) == Compacted(Entries(history))
    ensures ["x"] !in LayerAt(history, ("p", None)).stamps && ["x"] in LayerAt(replay, ("p", None)).stamps
    ensures forall i | 0 <= i < |history| :: history[i].entry.key[1..] != []
  {
    hide LayerAt, Entries, Compacted;
    history, replay := MemberPuts(["1", "2"], s), MemberPuts(["2"], s);
    MemberEntries(s);
    EntriesLength(history);
    CompactThree(PutAt(["x"], EMPTY, s).entry, PutAt(["x", "y"], Scalar("1"), s).entry, PutAt(["x", "y"], Scalar("2"), s).entry);
    MemberPutsUnstamp(["1", "2"], s);
    MemberPutsUnstamp(["2"], s);
  }

  /** An object of one member `b` put at `x`, then members of it put in turn. */
  function SiblingPuts(members: seq<(Seg, string)>, s: Stamp): seq<Landed> {
    if members == [] then [PutAt(["x"], Object(map["b" := Scalar("0")]), s)]
    else
      var last := members[|members| - 1];
      SiblingPuts(members[..|members| - 1], s) + [PutAt(["x", last.0], Scalar(last.1), s)]
  }

  /** The members the object has then, and whether it is still stamped: a put of its
      only member has emptied it on the way. */
  function Siblings(members: seq<(Seg, string)>): (Fields, bool) {
    if members == [] then (map["b" := Scalar("0")], true)
    else
      var last := members[|members| - 1];
      var (m, stamped) := Siblings(members[..|members| - 1]);
      (m[last.0 := Scalar(last.1)], stamped && m - {last.0} != map[])
  }

  lemma {:induction false} SiblingsStamp(members: seq<(Seg, string)>, s: Stamp)
    ensures var l := LayerAt(SiblingPuts(members, s), ("p", None));
      && l.fields == map["x" := Object(Siblings(members).0)]
      && (["x"] in l.stamps <==> Siblings(members).1) && Siblings(members).0 != map[]
  {
    hide Write, LayerAt;
    if members == [] {
      OnePut(Object(map["b" := Scalar("0")]), s);
      assert "b" in Siblings(members).0;
    } else {
      var front, last := members[..|members| - 1], members[|members| - 1];
      SiblingsStamp(front, s);
      OneMore(SiblingPuts(front, s), ["x", last.0], Scalar(last.1), s);
      MemberPut(LayerAt(SiblingPuts(front, s), ("p", None)), Siblings(front).0, last.0, last.1, s);
      assert last.0 in Siblings(members).0;
    }
  }

  lemma CompactFour(x: Entry, c: Entry, b: Entry, e: Entry)
    requires !AtOrUnder(x, c.key, c.dir) && !AtOrUnder(x, b.key, b.dir) && !AtOrUnder(x, e.key, e.dir)
    requires !AtOrUnder(c, b.key, b.dir) && !AtOrUnder(b, e.key, e.dir) && AtOrUnder(c, e.key, e.dir)
    ensures Compacted([x, c, b, e]) == [x, b, e]
  {
    hide Compacted, Outside;
    CompactNone();
    CompactOne([], x);
    CompactOne([x], c);
    CompactOne([x, c], b);
    CompactOne([x, c, b], e);
    OutsideOne([], x, c.key, c.dir);
    OutsideOne([], x, b.key, b.dir);
    OutsideOne([x], c, b.key, b.dir);
    OutsideOne([], x, e.key, e.dir);
    OutsideOne([x], c, e.key, e.dir);
    OutsideOne([x, c], b, e.key, e.dir);
    assert [x] + [c] == [x, c] && [x, c] + [b] == [x, c, b] && [x, c, b] + [e] == [x, c, b, e] && [] + [x] == [x];
  }

  function SiblingEntry(y: Seg, text: string): Entry {
    Persisted(["p"] + ["x", y], None, Scalar(text), None)
  }

  lemma {:induction false} SiblingEntries(members: seq<(Seg, string)>, s: Stamp)
    ensures |Entries(SiblingPuts(members, s))| == |members| + 1
    ensures Entries(SiblingPuts(members, s))[0] == PutAt(["x"], Object(map["b" := Scalar("0")]), s).entry
    ensures forall i | 1 <= i <= |members| ::
      Entries(SiblingPuts(members, s))[i] == SiblingEntry(members[i - 1].0, members[i - 1].1)
  {
    if members == [] {
      OnePut(Object(map["b" := Scalar("0")]), s);
    } else {
      var front, last := members[..|members| - 1], members[|members| - 1];
      SiblingEntries(front, s);
      OneMore(SiblingPuts(front, s), ["x", last.0], Scalar(last.1), s);
    }
  }

  const THREE: seq<(Seg, string)> := [("c", "1"), ("b", "2"), ("c", "3")]
  const TWO: seq<(Seg, string)> := [("b", "2"), ("c", "3")]

  lemma SiblingLogs(s: Stamp)
    ensures Entries(SiblingPuts(TWO, s)) == Compacted(Entries(SiblingPuts(THREE, s)))
    ensures forall e | e in Entries(SiblingPuts(TWO, s)) :: e.key[1..] != []
  {
    hide Compacted, Entries, SiblingPuts;
    var x := PutAt(["x"], Object(map["b" := Scalar("0")]), s).entry;
    var c, b, e := SiblingEntry("c", "1"), SiblingEntry("b", "2"), SiblingEntry("c", "3");
    var log, kept := Entries(SiblingPuts(THREE, s)), Entries(SiblingPuts(TWO, s));
    SiblingEntries(THREE, s);
    SiblingEntries(TWO, s);
    assert log == [x, c, b, e] by {
      assert log[1] == c && log[2] == b && log[3] == e;
    }
    assert kept == [x, b, e] by {
      assert kept[1] == b && kept[2] == e;
    }
    assert "c"[0] != "b"[0] && c.key[2] == "c" && b.key[2] == "b" && e.key == c.key;
    CompactFour(x, c, b, e);
  }

  /** Or it may drop one the history kept: the member that stood while another was put
      again comes later in the compacted log. */
  lemma ReplayMayLoseAStamp(s: Stamp) returns (history: seq<Landed>, replay: seq<Landed>)
    ensures Entries(replay) == Compacted(Entries(history))
    ensures ["x"] in LayerAt(history, ("p", None)).stamps && ["x"] !in LayerAt(replay, ("p", None)).stamps
    ensures forall i | 0 <= i < |replay| :: replay[i].entry.key[1..] != []
  {
    hide Compacted, Entries, SiblingPuts, LayerAt, Siblings;
    history, replay := SiblingPuts(THREE, s), SiblingPuts(TWO, s);
    SiblingLogs(s);
    SiblingsStamp(THREE, s);
    SiblingsStamp(TWO, s);
    SiblingsOf();
    EntriesLength(replay);
    forall i | 0 <= i < |replay|
      ensures replay[i].entry.key[1..] != []
    {
      assert Entries(replay)[i] in Entries(replay);
    }
  }

  lemma SiblingsOf()
    ensures Siblings(THREE).1 && !Siblings(TWO).1
  {
    var all, few := THREE, TWO;
    var b0: Fields := map["b" := Scalar("0")];
    assert all[..2] == [("c", "1"), ("b", "2")] && all[..2][..1] == [("c", "1")] && [("c", "1")][..0] == [];
    assert few[..1] == [("b", "2")] && [("b", "2")][..0] == [];
    assert Siblings([]) == (b0, true);
    assert "b" in b0 - {"c"} && b0 - {"b"} == map[];
    var c1 := b0["c" := Scalar("1")];
    assert Siblings([("c", "1")]) == (c1, true);
    assert "c" in c1 - {"b"};
    var b2 := c1["b" := Scalar("2")];
    assert Siblings(all[..2]) == (b2, true);
    assert "b" in b2 - {"c"};
    assert !Siblings([("b", "2")]).1;
  }

  // ---- The list itself --------------------------------------------------

  /** No entry stands at or below the address of a later one. */
  ghost predicate Tidy(log: Log) {
    forall i, j | 0 <= i < j < |log| :: !AtOrUnder(log[i], log[j].key, log[j].dir)
  }

  /** The entries of `some` are entries of `log`, in the order they have there. */
  ghost predicate Within(some: Log, log: Log) {
    exists at: seq<nat> :: Places(some, log, at)
  }

  ghost predicate Places(some: Log, log: Log, at: seq<nat>) {
    && |at| == |some|
    && (forall i | 0 <= i < |at| :: at[i] < |log| && some[i] == log[at[i]])
    && (forall i, j | 0 <= i < j < |at| :: at[i] < at[j])
  }

  lemma WithinIsTidy(some: Log, log: Log)
    requires Tidy(log) && Within(some, log)
    ensures Tidy(some)
  {
    var at: seq<nat> :| Places(some, log, at);
    forall i, j | 0 <= i < j < |some|
      ensures !AtOrUnder(some[i], some[j].key, some[j].dir)
    {
      assert at[i] < at[j];
    }
  }

  lemma WithinWhole(some: Log, log: Log)
    requires Within(some, log)
    ensures |some| == |log| ==> some == log
  {
    var at: seq<nat> :| Places(some, log, at);
    if |some| == |log| {
      Ranks(at, |log|);
    }
  }

  lemma {:induction false} Ranks(at: seq<nat>, n: nat)
    requires |at| == n && (forall i | 0 <= i < n :: at[i] < n)
    requires forall i, j | 0 <= i < j < n :: at[i] < at[j]
    ensures forall i | 0 <= i < n :: at[i] == i
  {
    if n > 0 {
      forall i | 0 <= i < n - 1
        ensures at[i] < n - 1
      {
        assert at[i] < at[n - 1];
      }
      Ranks(at[..n - 1], n - 1);
      assert n > 1 ==> at[..n - 1][n - 2] == n - 2;
    }
  }

  lemma WithinMore(some: Log, log: Log, e: Entry, kept: bool)
    requires Within(some, log)
    ensures Within(some + (if kept then [e] else []), log + [e])
  {
    var at: seq<nat> :| Places(some, log, at);
    var more: seq<nat> := at + if kept then [|log|] else [];
    assert Places(some + (if kept then [e] else []), log + [e], more);
  }

  lemma NoneWithin(log: Log)
    ensures Within([], log)
  {
    assert Places([], log, []);
  }

  /** Dropping an address takes exactly the entries at it and below it. */
  lemma {:induction false} OutsideTakes(log: Log, key: Addr, dir: Dir)
    ensures Within(Outside(log, key, dir), log)
    ensures forall e: Entry {:trigger e in Outside(log, key, dir)} :: e in Outside(log, key, dir) <==> e in log && !(e.dir == dir && key <= e.key)
  {
    if log == [] {
      NoneWithin([]);
    } else {
      var front, last := log[..|log| - 1], log[|log| - 1];
      OutsideTakes(front, key, dir);
      WithinMore(Outside(front, key, dir), front, last, !AtOrUnder(last, key, dir));
      assert log == front + [last];
    }
  }

  lemma {:induction false} ExpiredTakes(log: Log, key: Addr, dir: Dir)
    ensures Within(Expired(log, key, dir), log)
    ensures forall e :: e in Expired(log, key, dir) <==> e in log && !(e.key == key && e.dir == dir)
  {
    if log == [] {
      NoneWithin([]);
    } else {
      var front, last := log[..|log| - 1], log[|log| - 1];
      ExpiredTakes(front, key, dir);
      WithinMore(Expired(front, key, dir), front, last, !(last.key == key && last.dir == dir));
      assert log == front + [last];
    }
  }

  /** The list stays tidy whatever is recorded, a removal or an unpersisted put too. */
  lemma RecordedIsTidy(log: Log, key: Addr, dir: Dir, kept: Option<Entry>)
    requires Tidy(log) && (kept.Some? ==> kept.value.key == key && kept.value.dir == dir)
    ensures Tidy(Recorded(log, key, dir, kept))
  {
    var out := Outside(log, key, dir);
    OutsideTakes(log, key, dir);
    WithinIsTidy(out, log);
    forall i | 0 <= i < |out|
      ensures !AtOrUnder(out[i], key, dir)
    {
      assert out[i] in out;
    }
  }

  lemma ExpiredIsTidy(log: Log, key: Addr, dir: Dir)
    requires Tidy(log)
    ensures Tidy(Expired(log, key, dir))
  {
    ExpiredTakes(log, key, dir);
    WithinIsTidy(Expired(log, key, dir), log);
  }

  lemma TidyFront(log: Log)
    requires Tidy(log) && log != []
    ensures var n := |log| - 1; Tidy(log[..n]) && forall i | 0 <= i < n :: !AtOrUnder(log[..n][i], log[n].key, log[n].dir)
  {
  }

  lemma TidyMore(log: Log, e: Entry)
    requires Tidy(log) && forall r | r in log :: !AtOrUnder(r, e.key, e.dir)
    ensures Tidy(log + [e])
  {
    forall i | 0 <= i < |log|
      ensures !AtOrUnder(log[i], e.key, e.dir)
    {
      assert log[i] in log;
    }
  }

  /** No later put of `log` stands at the address of its `i`th or above it. */
  ghost predicate Stands(log: Log, i: nat) {
    i < |log| && forall j | i < j < |log| :: !AtOrUnder(log[i], log[j].key, log[j].dir)
  }

  ghost predicate StandsIn(log: Log, e: Entry) {
    exists i: nat :: Stands(log, i) && log[i] == e
  }

  lemma {:induction false} CompactedIsTidy(log: Log)
    ensures Tidy(Compacted(log))
  {
    if log != [] {
      hide Tidy;
      var front, last := log[..|log| - 1], log[|log| - 1];
      CompactedIsTidy(front);
      RecordedIsTidy(Compacted(front), last.key, last.dir, Some(last));
    }
  }

  lemma WithinRecorded(kept: Log, front: Log, last: Entry)
    requires Within(kept, front)
    ensures Within(Outside(kept, last.key, last.dir) + [last], front + [last])
  {
    hide Within, Outside;
    var left := Outside(kept, last.key, last.dir);
    OutsideTakes(kept, last.key, last.dir);
    WithinTransitive(left, kept, front);
    WithinMore(left, front, last, true);
  }

  lemma {:induction false} CompactedWithin(log: Log)
    ensures Within(Compacted(log), log)
  {
    hide Within, Compacted, Outside;
    if log == [] {
      CompactNone();
      NoneWithin([]);
    } else {
      var front, last := log[..|log| - 1], log[|log| - 1];
      assert front + [last] == log;
      CompactedWithin(front);
      CompactOne(front, last);
      WithinRecorded(Compacted(front), front, last);
    }
  }

  lemma {:induction false} CompactedStands(log: Log, e: Entry)
    ensures e in Compacted(log) <==> StandsIn(log, e)
  {
    if log != [] {
      hide StandsIn, Outside, Within;
      var front, last := log[..|log| - 1], log[|log| - 1];
      CompactedStands(front, e);
      OutsideTakes(Compacted(front), last.key, last.dir);
      StandsOrLast(front, last, e);
      assert log == front + [last];
    }
  }

  /** The store is left with the entries no later put stood at or above, in order. */
  lemma CompactedKeeps(log: Log)
    ensures Tidy(Compacted(log))
    ensures Within(Compacted(log), log)
    ensures forall e :: e in Compacted(log) <==> StandsIn(log, e)
  {
    CompactedIsTidy(log);
    CompactedWithin(log);
    forall e
      ensures e in Compacted(log) <==> StandsIn(log, e)
    {
      CompactedStands(log, e);
    }
  }

  lemma StandsOrLast(front: Log, last: Entry, e: Entry)
    ensures StandsIn(front + [last], e) <==> e == last || (StandsIn(front, e) && !AtOrUnder(e, last.key, last.dir))
  {
    var log := front + [last];
    if e == last {
      assert Stands(log, |front|) && log[|front|] == e;
    }
    if StandsIn(front, e) && !AtOrUnder(e, last.key, last.dir) {
      var i: nat :| Stands(front, i) && front[i] == e;
      assert Stands(log, i) && log[i] == e;
    }
    if StandsIn(log, e) && e != last {
      var i: nat :| Stands(log, i) && log[i] == e;
      assert !AtOrUnder(log[i], log[|front|].key, log[|front|].dir);
      forall j | i < j < |front|
        ensures !AtOrUnder(front[i], front[j].key, front[j].dir)
      {
        assert log[j] == front[j];
      }
      assert Stands(front, i) && front[i] == e;
    }
  }

  lemma WithinTransitive(a: Log, b: Log, c: Log)
    requires Within(a, b) && Within(b, c)
    ensures Within(a, c)
  {
    var f: seq<nat> :| Places(a, b, f);
    var g: seq<nat> :| Places(b, c, g);
    var h: seq<nat> := seq(|f|, i requires 0 <= i < |f| => g[f[i]]);
    assert Places(a, c, h);
  }

  lemma {:induction false} OutsideNone(log: Log, key: Addr, dir: Dir)
    requires forall i | 0 <= i < |log| :: !AtOrUnder(log[i], key, dir)
    ensures Outside(log, key, dir) == log
  {
    if log != [] {
      OutsideNone(log[..|log| - 1], key, dir);
    }
  }

  /** Recording the entries of a tidy list in order rebuilds exactly that list. */
  lemma {:induction false} TidyIsRebuilt(log: Log)
    requires Tidy(log)
    ensures Compacted(log) == log
  {
    if log != [] {
      var front, last := log[..|log| - 1], log[|log| - 1];
      TidyIsRebuilt(front);
      OutsideNone(front, last.key, last.dir);
    }
  }

  // ---- Across a restart -------------------------------------------------

  /** `remaining_secs`: the whole seconds left, rounded up; none of a put with no
      ttl, and `Some(None)` of one that has expired. */
  function Remaining(expires: Option<nat>, now: nat): Option<Option<nat>> {
    match expires
    case None => None
    case Some(at) => Some(if at <= now then None else Some((at - now + 999) / 1000))
  }

  /** The entry a replay records: it has the ttl that was left at `now`, counted
      from `later`, when its put lands. */
  function Renewed(e: Entry, now: nat, later: nat): Entry
    requires Remaining(e.expires, now) != Some(None)
  {
    match Remaining(e.expires, now)
    case Some(left) => e.(expires := Some(later + left.value * 1000))
    case None => e
  }

  /** It has no ttl, or its end is still to come. */
  predicate IsLive(e: Entry, now: nat) {
    e.expires.None? || now < e.expires.value
  }

  /** A replay never ends a put early, and puts its end off by less than a second
      over the time the replay took: by nothing if and only if a whole number of seconds
      was left. A put without a ttl stays without. */
  lemma RenewedEnds(e: Entry, now: nat, later: nat)
    requires IsLive(e, now) && now <= later
    ensures Remaining(e.expires, now) != Some(None)
    ensures var r := Renewed(e, now, later);
      && r.key == e.key && r.dir == e.dir && r.data == e.data
      && (e.expires.None? <==> r.expires.None?)
      && (e.expires.Some? ==>
            e.expires.value + (later - now) <= r.expires.value < e.expires.value + (later - now) + 1000)
      && (e.expires.Some? ==>
            (r.expires.value == e.expires.value + (later - now) <==> (e.expires.value - now) % 1000 == 0))
  {
  }

  /** A put with a millisecond left has a second left after a replay. */
  lemma RenewedPutsOff(now: nat) returns (e: Entry)
    ensures e.expires == Some(now + 1) && Renewed(e, now, now).expires == Some(now + 1000)
  {
    e := Persisted(["p"], None, EMPTY, Some(now + 1));
  }

  /** What the daemon takes now: a put it refuses is dropped. */
  type Takes = Entry -> bool

  /** The replay puts the entry again: it has not expired, and is taken. */
  predicate Again(e: Entry, now: nat, takes: Takes) {
    Remaining(e.expires, now) != Some(None) && takes(e)
  }

  /** What a replay at `now` puts again, its puts landing at the times of `clock`. */
  function Replayed(log: Log, now: nat, clock: seq<nat>, takes: Takes): Log
    requires |clock| == |log|
  {
    if log == [] then []
    else
      var n := |log| - 1;
      Replayed(log[..n], now, clock[..n], takes) +
      if !Again(log[n], now, takes) then [] else [Renewed(log[n], now, clock[n])]
  }

  lemma ReplayedOne(log: Log, e: Entry, now: nat, takes: Takes, clock: seq<nat>, later: nat)
    requires |clock| == |log|
    ensures Replayed(log + [e], now, clock + [later], takes) == Replayed(log, now, clock, takes) +
      if !Again(e, now, takes) then [] else [Renewed(e, now, later)]
  {
    assert (log + [e])[..|log|] == log && (clock + [later])[..|log|] == clock;
  }

  lemma {:induction false} ReplayedOutside(log: Log, now: nat, takes: Takes, clock: seq<nat>, key: Addr, dir: Dir)
    requires |clock| == |log| && forall i | 0 <= i < |log| :: !AtOrUnder(log[i], key, dir)
    ensures forall r | r in Replayed(log, now, clock, takes) :: !AtOrUnder(r, key, dir)
    decreases |log|
  {
    if log != [] {
      ReplayedOutside(log[..|log| - 1], now, takes, clock[..|log| - 1], key, dir);
    }
  }

  /** A replay puts again every entry that has not expired and that the daemon still
      takes, and no other. */
  lemma {:induction false} ReplayedTakes(log: Log, now: nat, takes: Takes, clock: seq<nat>, r: Entry)
    requires |clock| == |log|
    ensures r in Replayed(log, now, clock, takes) <==>
      exists i :: 0 <= i < |log| && Again(log[i], now, takes) && r == Renewed(log[i], now, clock[i])
    ensures forall e: Entry :: Again(e, now, takes) <==> IsLive(e, now) && takes(e)
    decreases |log|
  {
    if log != [] {
      var n := |log| - 1;
      ReplayedTakes(log[..n], now, takes, clock[..n], r);
      if r in Replayed(log[..n], now, clock[..n], takes) {
        var i :| 0 <= i < n && Again(log[..n][i], now, takes) && r == Renewed(log[..n][i], now, clock[..n][i]);
        assert log[i] == log[..n][i] && clock[i] == clock[..n][i];
      }
      forall i | 0 <= i < n && Again(log[i], now, takes) && r == Renewed(log[i], now, clock[i])
        ensures r in Replayed(log[..n], now, clock[..n], takes)
      {
        assert log[i] == log[..n][i] && clock[i] == clock[..n][i];
      }
    }
  }

  lemma {:induction false} ReplayedIsTidy(log: Log, now: nat, takes: Takes, clock: seq<nat>)
    requires Tidy(log) && |clock| == |log|
    ensures Tidy(Replayed(log, now, clock, takes))
    decreases |log|
  {
    if log != [] {
      hide Replayed, Tidy, AtOrUnder;
      var n := |log| - 1;
      var front, last := Replayed(log[..n], now, clock[..n], takes), log[n];
      TidyFront(log);
      ReplayedIsTidy(log[..n], now, takes, clock[..n]);
      assert log == log[..n] + [last] && clock == clock[..n] + [clock[n]];
      ReplayedOne(log[..n], last, now, takes, clock[..n], clock[n]);
      ReplayedOutside(log[..n], now, takes, clock[..n], last.key, last.dir);
      if Again(last, now, takes) {
        TidyMore(front, Renewed(last, now, clock[n]));
      } else {
        assert front + [] == front;
      }
    }
  }

  /** A restart keeps the list: recording what it replays leaves exactly that. */
  lemma RestartKeepsTheList(log: Log, now: nat, takes: Takes, clock: seq<nat>)
    requires Tidy(log) && |clock| == |log|
    ensures Compacted(Replayed(log, now, clock, takes)) == Replayed(log, now, clock, takes)
  {
    ReplayedIsTidy(log, now, takes, clock);
    TidyIsRebuilt(Replayed(log, now, clock, takes));
  }

  lemma ReplayNone(now: nat, takes: Takes)
    ensures Compacted(Replayed([], now, [], takes)) == []
  {
  }

  /** One round of the replay. */
  lemma ReplayStep(log: Log, now: nat, takes: Takes, clock: seq<nat>, i: nat)
    requires |clock| == |log| && i < |log|
    ensures var before := Compacted(Replayed(log[..i], now, clock[..i], takes));
      Compacted(Replayed(log[..i + 1], now, clock[..i + 1], takes)) ==
        if !Again(log[i], now, takes) then before
        else
          var again := Renewed(log[i], now, clock[i]);
          Recorded(before, again.key, again.dir, Some(again))
  {
    hide Replayed, Compacted, Outside;
    assert log[..i + 1] == log[..i] + [log[i]] && clock[..i + 1] == clock[..i] + [clock[i]];
    var r := Replayed(log[..i], now, clock[..i], takes);
    ReplayedOne(log[..i], log[i], now, takes, clock[..i], clock[i]);
    if Again(log[i], now, takes) {
      CompactOne(r, Renewed(log[i], now, clock[i]));
    } else {
      assert r + [] == r;
    }
  }

  // ---- The store --------------------------------------------------------

  class PutStore {
    var entries: Log
    /** What the file holds. */
    var file: Log

    /** `open`, over what the file held: an empty store, and the entries that have
        not expired, in order. */
    constructor (held: Log)
      ensures entries == [] && file == held
    {
      entries, file := [], held;
    }

    /** `record`: a put to `key` at `dir` landed. */
    method Record(key: Addr, dir: Dir, kept: Option<Entry>)
      modifies this
      ensures entries == Recorded(old(entries), key, dir, kept)
      ensures file == if entries == old(entries) && kept.None? then old(file) else entries
    {
      var left: Log := [];
      for i := 0 to |entries|
        invariant left == Outside(entries[..i], key, dir)
        invariant entries == old(entries) && file == old(file)
      {
        assert entries[..i + 1][..i] == entries[..i];
        if !AtOrUnder(entries[i], key, dir) {
          left := left + [entries[i]];
        }
      }
      assert entries[..|entries|] == entries;
      WithinWhole(left, entries) by {
        OutsideTakes(entries, key, dir);
      }
      var changed := |left| != |entries| || kept.Some?;
      entries := left + if kept.Some? then [kept.value] else [];
      if changed {
        file := entries;
      }
    }

    /** `expire`: the put at `key` in `dir` expired. */
    method Expire(key: Addr, dir: Dir)
      modifies this
      ensures entries == Expired(old(entries), key, dir)
      ensures file == if entries == old(entries) then old(file) else entries
    {
      var left: Log := [];
      for i := 0 to |entries|
        invariant left == Expired(entries[..i], key, dir)
        invariant entries == old(entries) && file == old(file)
      {
        assert entries[..i + 1][..i] == entries[..i];
        if !(entries[i].key == key && entries[i].dir == dir) {
          left := left + [entries[i]];
        }
      }
      assert entries[..|entries|] == entries;
      WithinWhole(left, entries) by {
        ExpiredTakes(entries, key, dir);
      }
      var changed := |left| != |entries|;
      entries := left;
      if changed {
        file := entries;
      }
    }

    /** `replay_persisted_puts`: each entry still live at `now` is put again, and so
        recorded again if it is taken. Where the list held was one the store had written, what it
        ends with is that list but for what had expired or is refused; and its file says so if
        anything was put. */
    method Replay(held: Log, now: nat, clock: seq<nat>, takes: Takes)
      requires |clock| == |held| && entries == []
      modifies this
      ensures entries == Compacted(Replayed(held, now, clock, takes))
      ensures Tidy(held) ==> entries == Replayed(held, now, clock, takes)
      ensures entries != [] ==> file == entries
    {
      hide Replayed, Compacted, Tidy, Outside;
      ReplayNone(now, takes);
      assert held[..0] == [] && clock[..0] == [];
      for i := 0 to |held|
        invariant entries == Compacted(Replayed(held[..i], now, clock[..i], takes))
        invariant entries != [] ==> file == entries
      {
        ReplayStep(held, now, takes, clock, i);
        if Again(held[i], now, takes) {
          var again := Renewed(held[i], now, clock[i]);
          Record(again.key, again.dir, Some(again));
        }
      }
      assert held[..|held|] == held && clock[..|clock|] == clock;
      if Tidy(held) {
        RestartKeepsTheList(held, now, takes, clock);
      }
    }
  }
}
