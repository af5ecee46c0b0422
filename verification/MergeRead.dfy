/** The merges of src/cache.rs as they run: the tree and the records rewritten in
    place, key by key, in whatever order a map gives its keys. Each leaves what
    `Merge` says, and a whole chain read is exact and honest. */
module MergeRead {
  import opened Prelude
  import opened Tree
  import opened Puts
  import opened Merge

  /** The record at `t` once the leaves of `value`, at `tail`, are noted. */
  function Noted(before: Option<Fresh>, t: Addr, tail: Addr, value: Value, from: Origin): Option<Fresh> {
    if tail <= t && LeafIn(value, t[|tail|..]).Some? && Mark(from, t).Some? then Mark(from, t) else before
  }

  /** `After`, of the node at `prefix`. */
  function AfterAt(f: Fields, o: Fields, prefix: Addr, t: Addr, before: Option<Fresh>, from: Origin): Option<Fresh> {
    if prefix <= t then After(f, o, t[|prefix|..], before, Mark(from, t)) else before
  }

  // ---- One key of a loop ------------------------------------------------

  lemma UnderKey(tail: Addr, k: Seg, t: Addr)
    ensures tail + [k] <= t <==> tail < t && t[|tail|] == k
    ensures tail + [k] <= t ==> t[|tail|..] == [k] + t[|tail + [k]|..]
  {
    if tail < t && t[|tail|] == k {
      assert t == t[..|tail|] + [k] + t[|tail| + 1..];
    }
  }

  lemma NotedKey(before: Option<Fresh>, t: Addr, tail: Addr, value: Value, from: Origin, k: Seg)
    requires value.Object? && k in value.fields && tail + [k] <= t
    ensures Noted(before, t, tail, value, from) == Noted(before, t, tail + [k], value.fields[k], from)
  {
    UnderKey(tail, k, t);
    LeafHead(value.fields, t[|tail|..]);
    assert ([k] + t[|tail + [k]|..])[1..] == t[|tail + [k]|..];
  }

  lemma NotedNoKey(before: Option<Fresh>, t: Addr, tail: Addr, value: Value, from: Origin)
    requires value.Object? && value.fields != map[] && !(tail < t && t[|tail|] in value.fields)
    ensures Noted(before, t, tail, value, from) == before
  {
    if tail <= t && t[|tail|..] != [] {
      LeafHead(value.fields, t[|tail|..]);
    }
  }

  lemma NotedLeaf(before: Option<Fresh>, t: Addr, tail: Addr, value: Value, from: Origin)
    requires IsLeaf(value)
    ensures Noted(before, t, tail, value, from) == if t == tail && Mark(from, t).Some? then Mark(from, t) else before
  {
    if tail <= t {
      assert t[|tail|..] == [] <==> t == tail;
    }
  }

  lemma AfterObjects(f: Fields, o: Fields, prefix: Addr, k: Seg, t: Addr, before: Option<Fresh>, from: Origin)
    requires k in f && k in o && f[k].Object? && o[k].Object? && prefix + [k] <= t
    ensures AfterAt(f, o, prefix, t, before, from) ==
      if t == prefix + [k] then (if o[k].fields != map[] then None else before)
      else AfterAt(f[k].fields, o[k].fields, prefix + [k], t, before, from)
  {
    UnderKey(prefix, k, t);
    assert t[|prefix + [k]|..] == [] <==> t == prefix + [k];
    assert ([k] + t[|prefix + [k]|..])[1..] == t[|prefix + [k]|..];
  }

  lemma AfterReplaced(f: Fields, o: Fields, prefix: Addr, k: Seg, t: Addr, before: Option<Fresh>, from: Origin)
    requires k in o && !(k in f && f[k].Object? && o[k].Object?) && prefix + [k] <= t
    ensures AfterAt(f, o, prefix, t, before, from) ==
      Noted(if k in f then None else before, t, prefix + [k], o[k], from)
  {
    UnderKey(prefix, k, t);
    assert ([k] + t[|prefix + [k]|..])[1..] == t[|prefix + [k]|..];
  }

  lemma AfterNoKey(f: Fields, o: Fields, prefix: Addr, t: Addr, before: Option<Fresh>, from: Origin)
    requires !(prefix < t && t[|prefix|] in o)
    ensures AfterAt(f, o, prefix, t, before, from) == before
  {
    assert prefix <= t ==> (t[|prefix|..] == [] <==> t == prefix);
  }

  // ---- The record helpers -----------------------------------------------

  /** `forget_records`. */
  function Forgotten(r: Records, tail: Addr): Records {
    map t | t in r && !(tail <= t) :: r[t]
  }

  /** `note_records` and `copy_records`: each leaf of the value that stands at `tail`
      gets its record. */
  method NoteRecords(r: Records, tail: Addr, value: Value, from: Origin) returns (s: Records)
    ensures forall t {:trigger Get(s, t)} :: Get(s, t) == Noted(Get(r, t), t, tail, value, from)
    decreases value
  {
    hide Noted;
    s := r;
    if value.Object? && value.fields != map[] {
      var todo := value.fields.Keys;
      forall t | !(tail < t && t[|tail|] in todo)
        ensures Get(s, t) == Noted(Get(r, t), t, tail, value, from)
      {
        NotedNoKey(Get(r, t), t, tail, value, from);
      }
      while todo != {}
        invariant todo <= value.fields.Keys
        invariant forall t {:trigger Get(s, t)} ::
          Get(s, t) == if tail < t && t[|tail|] in todo then Get(r, t) else Noted(Get(r, t), t, tail, value, from)
        decreases |todo|
      {
        var k :| k in todo;
        ghost var was := s;
        s := NoteRecords(s, tail + [k], value.fields[k], from);
        todo := todo - {k};
        forall t
          ensures Get(s, t) == if tail < t && t[|tail|] in todo then Get(r, t) else Noted(Get(r, t), t, tail, value, from)
        {
          UnderKey(tail, k, t);
          if tail + [k] <= t {
            NotedKey(Get(r, t), t, tail, value, from, k);
          } else {
            assert Get(s, t) == Get(was, t) by { NotedElsewhere(Get(was, t), t, tail + [k], value.fields[k], from); }
          }
        }
      }
    } else {
      forall t
        ensures Noted(Get(r, t), t, tail, value, from) == if t == tail && Mark(from, t).Some? then Mark(from, t) else Get(r, t)
      {
        NotedLeaf(Get(r, t), t, tail, value, from);
      }
      var mark := Mark(from, tail);
      if mark.Some? {
        s := s[tail := mark.value];
      }
    }
  }

  lemma NotedElsewhere(before: Option<Fresh>, t: Addr, tail: Addr, value: Value, from: Origin)
    requires !(tail <= t)
    ensures Noted(before, t, tail, value, from) == before
  {
  }

  // ---- The merge --------------------------------------------------------

  /** The tree once the keys of `o` but `todo` are merged. */
  ghost predicate TreeDone(f: Fields, o: Fields, todo: set<Seg>, g: Fields) {
    && g.Keys == f.Keys + (o.Keys - todo)
    && forall k | k in g :: g[k] == if k in todo || k !in o then f[k] else Merged(f, o)[k]
  }

  /** The record at `t` then. */
  function RecordDone(f: Fields, r: Records, o: Fields, from: Origin, prefix: Addr, todo: set<Seg>, t: Addr): Option<Fresh> {
    if prefix < t && t[|prefix|] in todo then Get(r, t) else AfterAt(f, o, prefix, t, Get(r, t), from)
  }

  ghost predicate RecordsDone(f: Fields, r: Records, o: Fields, from: Origin, prefix: Addr, todo: set<Seg>, s: Records) {
    forall t {:trigger Get(s, t)} :: Get(s, t) == RecordDone(f, r, o, from, prefix, todo, t)
  }

  lemma NoneDone(f: Fields, r: Records, o: Fields, from: Origin, prefix: Addr)
    ensures TreeDone(f, o, o.Keys, f) && RecordsDone(f, r, o, from, prefix, o.Keys, r)
  {
    forall t
      ensures Get(r, t) == RecordDone(f, r, o, from, prefix, o.Keys, t)
    {
      if !(prefix < t && t[|prefix|] in o) {
        AfterNoKey(f, o, prefix, t, Get(r, t), from);
      }
    }
  }

  lemma OneDone(f: Fields, o: Fields, todo: set<Seg>, g: Fields, k: Seg)
    requires TreeDone(f, o, todo, g) && k in todo && todo <= o.Keys
    ensures TreeDone(f, o, todo - {k}, g[k := Merged(f, o)[k]])
    ensures (k in g <==> k in f) && (k in f ==> g[k] == f[k])
  {
  }

  lemma AllDone(f: Fields, r: Records, o: Fields, from: Origin, prefix: Addr, g: Fields, s: Records)
    requires TreeDone(f, o, {}, g) && RecordsDone(f, r, o, from, prefix, {}, s)
    ensures g == Merged(f, o)
    ensures forall t {:trigger Get(s, t)} :: Get(s, t) == AfterAt(f, o, prefix, t, Get(r, t), from)
  {
  }

  /** `merge_layer` and `merge_read`: `o` merged over the node at `prefix`. */
  method MergeInto(f: Fields, r: Records, o: Fields, from: Origin, prefix: Addr) returns (g: Fields, s: Records)
    ensures g == Merged(f, o)
    ensures forall t {:trigger Get(s, t)} :: Get(s, t) == AfterAt(f, o, prefix, t, Get(r, t), from)
    decreases Object(o), 0
  {
    hide AfterAt, Merged, TreeDone, RecordsDone;
    g, s := f, r;
    var todo := o.Keys;
    NoneDone(f, r, o, from, prefix);
    while todo != {}
      invariant todo <= o.Keys
      invariant TreeDone(f, o, todo, g) && RecordsDone(f, r, o, from, prefix, todo, s)
      decreases |todo|
    {
      var k :| k in todo;
      OneDone(f, o, todo, g, k);
      g, s := MergeKey(f, g, r, s, o, from, prefix, k, todo);
      todo := todo - {k};
    }
    AllDone(f, r, o, from, prefix, g, s);
  }

  /** One key of the loop. */
  method MergeKey(ghost f: Fields, g: Fields, ghost r: Records, s: Records, o: Fields, from: Origin, prefix: Addr, k: Seg,
                  ghost todo: set<Seg>) returns (h: Fields, u: Records)
    requires k in o && k in todo && (k in g <==> k in f) && (k in f ==> g[k] == f[k])
    requires RecordsDone(f, r, o, from, prefix, todo, s)
    ensures k in Merged(f, o) && h == g[k := Merged(f, o)[k]]
    ensures RecordsDone(f, r, o, from, prefix, todo - {k}, u)
    decreases o[k], 1
  {
    hide AfterAt, Noted;
    var tail, v := prefix + [k], o[k];
    if k in g && g[k].Object? && v.Object? {
      assert Object(v.fields) == v;
      u := if v.fields != map[] then s - {tail} else s;
      ghost var was := u;
      var m;
      m, u := MergeInto(g[k].fields, u, v.fields, from, tail);
      h := g[k := Object(m)];
      forall t
        ensures Get(u, t) == RecordDone(f, r, o, from, prefix, todo - {k}, t)
      {
        assert Get(was, t) == if t == tail && v.fields != map[] then None else Get(s, t);
        assert Get(s, t) == RecordDone(f, r, o, from, prefix, todo, t);
        ObjectsStep(f, r, o, from, prefix, k, todo, t);
      }
    } else {
      u := if k in g then Forgotten(s, tail) else s;
      h := g[k := v];
      ghost var was := u;
      u := NoteRecords(u, tail, v, from);
      forall t
        ensures Get(u, t) == RecordDone(f, r, o, from, prefix, todo - {k}, t)
      {
        assert Get(was, t) == if k in f && tail <= t then None else Get(s, t);
        assert Get(s, t) == RecordDone(f, r, o, from, prefix, todo, t);
        ReplacedStep(f, r, o, from, prefix, k, todo, t);
      }
    }
  }

  /** The record at `t` after one key: two objects are merged. */
  lemma ObjectsStep(f: Fields, r: Records, o: Fields, from: Origin, prefix: Addr, k: Seg, todo: set<Seg>, t: Addr)
    requires k in todo && k in f && k in o && f[k].Object? && o[k].Object?
    ensures var was := RecordDone(f, r, o, from, prefix, todo, t);
      RecordDone(f, r, o, from, prefix, todo - {k}, t) ==
        AfterAt(f[k].fields, o[k].fields, prefix + [k], t,
                if t == prefix + [k] && o[k].fields != map[] then None else was, from)
  {
    hide AfterAt;
    var tail := prefix + [k];
    UnderKey(prefix, k, t);
    if tail <= t {
      AfterObjects(f, o, prefix, k, t, Get(r, t), from);
      if t == tail {
        AfterNoKey(f[k].fields, o[k].fields, tail, t, if o[k].fields != map[] then None else Get(r, t), from);
      }
    } else {
      AfterNoKey(f[k].fields, o[k].fields, tail, t, RecordDone(f, r, o, from, prefix, todo, t), from);
    }
  }

  /** The record at `t` after one key: what stood there is replaced. */
  lemma ReplacedStep(f: Fields, r: Records, o: Fields, from: Origin, prefix: Addr, k: Seg, todo: set<Seg>, t: Addr)
    requires k in todo && k in o && !(k in f && f[k].Object? && o[k].Object?)
    ensures var was := RecordDone(f, r, o, from, prefix, todo, t);
      RecordDone(f, r, o, from, prefix, todo - {k}, t) ==
        Noted(if k in f && prefix + [k] <= t then None else was, t, prefix + [k], o[k], from)
  {
    hide AfterAt, Noted;
    UnderKey(prefix, k, t);
    if prefix + [k] <= t {
      AfterReplaced(f, o, prefix, k, t, Get(r, t), from);
    } else {
      NotedElsewhere(RecordDone(f, r, o, from, prefix, todo, t), t, prefix + [k], o[k], from);
    }
  }

  /** A layer merged over the whole read. */
  method MergeOver(r: Read, o: Fields, from: Origin) returns (v: Read)
    ensures MergedAs(r, o, from, v)
  {
    var g, s := MergeInto(r.fields, r.records, o, from, []);
    v := Read(g, s);
    forall t
      ensures Get(v.records, t) == After(r.fields, o, t, Get(r.records, t), Mark(from, t))
    {
      assert t[0..] == t;
    }
  }
}
