/** The subscription registry (src/watcher_registry.rs) as a transition system: a map
    of channels that subscribers, notifications and drops change together, and that is
    collected while they do. A notification and a drop are two steps each. */
module Channels {
  import opened Prelude

  /** The key of a namespace's watchers: its base provider, and the directory. */
  type Key = (string, Option<string>)

  /** A live subscription: its key, and the channel its receiver is attached to. */
  datatype Receiver = Receiver(key: Key, channel: nat)

  /** `dropping` are the subscriptions whose receiver is gone and whose collection of
      their key is still to come, and `failed` the notifications that found nobody and
      are still to collect theirs. `heard` counts what each subscription was sent. */
  datatype World = World(channels: map<Key, nat>, made: nat, live: map<nat, Receiver>, subs: nat,
                         dropping: map<nat, Key>, failed: seq<Key>, heard: map<nat, nat>)

  ghost predicate Start(w: World) {
    w == World(map[], 0, map[], 0, map[], [], map[])
  }

  /** `receiver_count`. */
  function Receivers(w: World, channel: nat): set<nat> {
    set s | s in w.live && w.live[s].channel == channel
  }

  // ---- Steps ------------------------------------------------------------

  ghost predicate Subscribe(w: World, key: Key, v: World) {
    var channel := if key in w.channels then w.channels[key] else w.made;
    v == w.(channels := w.channels[key := channel], made := if key in w.channels then w.made else w.made + 1,
            live := w.live[w.subs := Receiver(key, channel)], subs := w.subs + 1, heard := w.heard[w.subs := 0])
  }

  /** The first step of `notify`: every receiver of the channel at the key is sent to;
      with none, the send fails. */
  ghost predicate Notify(w: World, key: Key, v: World) {
    var to := if key in w.channels then Receivers(w, w.channels[key]) else {};
    v == w.(heard := map s | s in w.heard :: w.heard[s] + if s in to then 1 else 0,
            failed := if key in w.channels && to == {} then w.failed + [key] else w.failed)
  }

  /** The first step of `Subscription::drop`: the receiver goes. */
  ghost predicate Detach(w: World, s: nat, v: World) {
    s in w.live && v == w.(live := w.live - {s}, dropping := w.dropping[s := w.live[s].key])
  }

  /** `remove_if`: a channel without receivers goes, its count taken under its lock. */
  function Collected(w: World, key: Key): World {
    if key in w.channels && Receivers(w, w.channels[key]) == {} then w.(channels := w.channels - {key}) else w
  }

  /** The second step of a drop, or of a failed notification; or `gc`, at one key. */
  ghost predicate Collect(w: World, who: Collector, v: World) {
    match who
    case Drop(s) => s in w.dropping && v == Collected(w, w.dropping[s]).(dropping := w.dropping - {s})
    case Failure(i) => i < |w.failed| && v == Collected(w, w.failed[i]).(failed := w.failed[..i] + w.failed[i + 1..])
    case Sweep(key) => v == Collected(w, key)
  }

  datatype Collector = Drop(sub: nat) | Failure(at: nat) | Sweep(key: Key)

  datatype Action = Subscribes(key: Key) | Notifies(key: Key) | Detaches(sub: nat) | Collects(who: Collector)

  ghost predicate Step(w: World, a: Action, v: World) {
    match a
    case Subscribes(key) => Subscribe(w, key, v)
    case Notifies(key) => Notify(w, key, v)
    case Detaches(s) => Detach(w, s, v)
    case Collects(who) => Collect(w, who, v)
  }

  ghost predicate Run(ws: seq<World>, acts: seq<Action>) {
    && |ws| == |acts| + 1 && Start(ws[0])
    && forall i | 0 <= i < |acts| :: Step(ws[i], acts[i], ws[i + 1])
  }

  // ---- The invariant ----------------------------------------------------

  /** A live subscription's receiver is attached to the channel at its key. */
  predicate Attached(w: World, s: nat) {
    s in w.live ==>
      && w.live[s].key in w.channels && w.channels[w.live[s].key] == w.live[s].channel
      && s < w.subs && s in w.heard
  }

  /** A channel nobody listens to is one that a drop has still to collect. */
  ghost predicate Owed(w: World, key: Key) {
    key in w.channels ==>
      && w.channels[key] < w.made
      && (Receivers(w, w.channels[key]) == {} ==> exists s :: s in w.dropping && w.dropping[s] == key)
  }

  ghost predicate Inv(w: World) {
    && (forall s {:trigger Attached(w, s)} :: Attached(w, s))
    && (forall key {:trigger Owed(w, key)} :: Owed(w, key))
    && (forall k, j | k in w.channels && j in w.channels && w.channels[k] == w.channels[j] :: k == j)
    && (forall s | s in w.dropping :: s !in w.live && s < w.subs)
  }

  lemma CollectedKeeps(w: World, key: Key)
    requires Inv(w)
    ensures Inv(Collected(w, key))
    ensures forall k | k in Collected(w, key).channels :: k in w.channels
    ensures key in Collected(w, key).channels ==> Receivers(w, w.channels[key]) != {}
  {
    var v := Collected(w, key);
    forall s
      ensures Attached(v, s)
    {
      assert Attached(w, s);
      if s in w.live && w.live[s].key == key {
        assert s in Receivers(w, w.live[s].channel);
      }
    }
    forall k
      ensures Owed(v, k)
    {
      assert Owed(w, k);
      assert k in v.channels ==> Receivers(v, v.channels[k]) == Receivers(w, w.channels[k]);
    }
  }

  lemma SubscribeKeeps(w: World, key: Key, v: World)
    requires Inv(w) && Subscribe(w, key, v)
    ensures Inv(v)
  {
    forall s
      ensures Attached(v, s)
    {
      assert Attached(w, s);
    }
    forall k
      ensures Owed(v, k)
    {
      assert Owed(w, k);
      if k == key {
        assert w.subs in Receivers(v, v.channels[k]);
      } else if k in w.channels {
        forall s | s in Receivers(w, w.channels[k])
          ensures s in Receivers(v, v.channels[k])
        {
          assert Attached(w, s);
        }
      }
    }
    forall k | k in w.channels
      ensures w.channels[k] < w.made
    {
      assert Owed(w, k);
    }
  }

  lemma NotifyKeeps(w: World, key: Key, v: World)
    requires Inv(w) && Notify(w, key, v)
    ensures Inv(v)
  {
    forall s
      ensures Attached(v, s)
    {
      assert Attached(w, s);
    }
    forall k
      ensures Owed(v, k)
    {
      assert Owed(w, k);
      assert k in v.channels ==> Receivers(v, v.channels[k]) == Receivers(w, w.channels[k]);
    }
  }

  lemma DetachKeeps(w: World, s: nat, v: World)
    requires Inv(w) && Detach(w, s, v)
    ensures Inv(v)
  {
    forall t
      ensures Attached(v, t)
    {
      assert Attached(w, t);
    }
    assert Attached(w, s);
    forall k
      ensures Owed(v, k)
    {
      assert Owed(w, k);
      if k in w.channels && Receivers(v, v.channels[k]) == {} {
        if k == w.live[s].key {
          assert s in v.dropping && v.dropping[s] == k;
        } else {
          assert w.channels[k] != w.live[s].channel;
          assert Receivers(w, w.channels[k]) == Receivers(v, v.channels[k]);
          var t :| t in w.dropping && w.dropping[t] == k;
          assert t in v.dropping && v.dropping[t] == k;
        }
      }
    }
  }

  lemma DropCollects(w: World, s: nat, v: World)
    requires Inv(w) && s in w.dropping && v == Collected(w, w.dropping[s]).(dropping := w.dropping - {s})
    ensures Inv(v)
  {
    var key := w.dropping[s];
    var c := Collected(w, key);
    CollectedKeeps(w, key);
    forall t
      ensures Attached(v, t)
    {
      assert Attached(c, t);
    }
    forall k
      ensures Owed(v, k)
    {
      assert Owed(c, k);
      if k in v.channels {
        assert Receivers(v, v.channels[k]) == Receivers(c, c.channels[k]) == Receivers(w, w.channels[k]);
        if Receivers(c, c.channels[k]) == {} {
          var t :| t in c.dropping && c.dropping[t] == k;
          assert t in v.dropping && v.dropping[t] == k;
        }
      }
    }
  }

  lemma StepKeeps(w: World, a: Action, v: World)
    requires Inv(w) && Step(w, a, v)
    ensures Inv(v)
  {
    match a
    case Subscribes(key) => SubscribeKeeps(w, key, v);
    case Notifies(key) => NotifyKeeps(w, key, v);
    case Detaches(s) => DetachKeeps(w, s, v);
    case Collects(who) =>
      match who {
        case Drop(s) => DropCollects(w, s, v);
        case Failure(i) =>
          CollectedKeeps(w, w.failed[i]);
          SameButFailed(Collected(w, w.failed[i]), v);
        case Sweep(key) => CollectedKeeps(w, key);
      }
  }

  lemma SameButFailed(c: World, v: World)
    requires Inv(c) && v == c.(failed := v.failed)
    ensures Inv(v)
  {
    forall s
      ensures Attached(v, s)
    {
      assert Attached(c, s);
    }
    forall k
      ensures Owed(v, k)
    {
      assert Owed(c, k);
      assert k in v.channels ==> Receivers(v, v.channels[k]) == Receivers(c, c.channels[k]);
    }
  }

  lemma {:induction false} RunInv(ws: seq<World>, acts: seq<Action>, i: nat)
    requires Run(ws, acts) && i < |ws|
    ensures Inv(ws[i])
  {
    hide Inv, Step;
    if i > 0 {
      RunInv(ws, acts, i - 1);
      StepKeeps(ws[i - 1], acts[i - 1], ws[i]);
    } else {
      StartInv(ws[0]);
    }
  }

  lemma StartInv(w: World)
    requires Start(w)
    ensures Inv(w)
  {
  }

  // ---- What it is for ---------------------------------------------------

  /** No subscriber is lost: at every moment of every interleaving, a live
      subscription's receiver is attached to the channel at its key. */
  lemma NobodyIsLost(ws: seq<World>, acts: seq<Action>, i: nat, s: nat)
    requires Run(ws, acts) && i < |ws| && s in ws[i].live
    ensures var w := ws[i];
      w.live[s].key in w.channels && w.channels[w.live[s].key] == w.live[s].channel
  {
    RunInv(ws, acts, i);
    assert Attached(ws[i], s);
  }

  /** So a notification is sent to every live subscription of its key, and to no other. */
  lemma EverybodyHears(ws: seq<World>, acts: seq<Action>, i: nat, s: nat)
    requires Run(ws, acts) && i < |acts| && acts[i].Notifies? && s in ws[i].live
    ensures s in ws[i].heard && s in ws[i + 1].heard
    ensures ws[i + 1].heard[s] == ws[i].heard[s] + if ws[i].live[s].key == acts[i].key then 1 else 0
  {
    var w := ws[i];
    RunInv(ws, acts, i);
    assert Attached(w, s);
    assert Step(w, acts[i], ws[i + 1]);
  }

  /** How many notifications of `key` the steps from `i` to `j` have begun. */
  function Notified(acts: seq<Action>, i: nat, j: nat, key: Key): nat
    requires i <= j <= |acts|
    decreases j
  {
    if i == j then 0
    else Notified(acts, i, j - 1, key) + if acts[j - 1] == Notifies(key) then 1 else 0
  }

  /** A subscription to a key is one of that key, for as long as it is not dropped, and it
      has heard precisely the notifications of the key begun since it was made. */
  lemma {:induction false} HearsItsKey(ws: seq<World>, acts: seq<Action>, i: nat, j: nat)
    requires Run(ws, acts) && i < j < |ws| && acts[i].Subscribes?
    requires forall m | i < m < j :: acts[m] != Detaches(ws[i].subs)
    ensures var s := ws[i].subs;
      && s !in ws[i].live && s in ws[j].live && s < ws[j].subs && ws[j].live[s].key == acts[i].key
      && s in ws[j].heard && ws[j].heard[s] == Notified(acts, i + 1, j, acts[i].key)
    decreases j
  {
    hide Step, Inv;
    var s, key := ws[i].subs, acts[i].key;
    assert Step(ws[j - 1], acts[j - 1], ws[j - 1 + 1]);
    if j == i + 1 {
      SubscriptionBegins(ws, acts, i);
    } else {
      HearsItsKey(ws, acts, i, j - 1);
      SubscriptionGoesOn(ws[j - 1], acts[j - 1], ws[j], s);
      if acts[j - 1].Notifies? {
        EverybodyHears(ws, acts, j - 1, s);
      }
    }
  }

  lemma SubscriptionBegins(ws: seq<World>, acts: seq<Action>, i: nat)
    requires Run(ws, acts) && i < |acts| && acts[i].Subscribes?
    ensures var s := ws[i].subs;
      && s !in ws[i].live && s in ws[i + 1].live && s < ws[i + 1].subs && ws[i + 1].live[s].key == acts[i].key
      && s in ws[i + 1].heard && ws[i + 1].heard[s] == 0
  {
    RunInv(ws, acts, i);
    assert Attached(ws[i], ws[i].subs);
    assert Step(ws[i], acts[i], ws[i + 1]);
  }

  /** No step but its own drop ends a subscription or moves it to another key, and none but
      a notification is heard. */
  lemma SubscriptionGoesOn(w: World, a: Action, v: World, s: nat)
    requires Step(w, a, v) && s in w.live && s in w.heard && s < w.subs && a != Detaches(s)
    ensures s in v.live && v.live[s].key == w.live[s].key && s in v.heard && s < v.subs
    ensures !a.Notifies? ==> v.heard[s] == w.heard[s]
  {
  }

  /** Once every drop has finished, the keys are exactly those of live subscriptions:
      nothing is left behind, whatever else was under way. */
  lemma NothingIsLeft(ws: seq<World>, acts: seq<Action>, i: nat, key: Key)
    requires Run(ws, acts) && i < |ws| && ws[i].dropping == map[]
    ensures key in ws[i].channels <==> exists s :: s in ws[i].live && ws[i].live[s].key == key
  {
    var w := ws[i];
    RunInv(ws, acts, i);
    assert Owed(w, key);
    if key in w.channels {
      assert Receivers(w, w.channels[key]) != {};
      var s :| s in Receivers(w, w.channels[key]);
      assert Attached(w, s);
      assert s in w.live && w.live[s].key == key;
    }
    forall s | s in w.live && w.live[s].key == key
      ensures key in w.channels
    {
      assert Attached(w, s);
    }
  }

  // ---- The registry -----------------------------------------------------

  class WatcherRegistry {
    var channels: map<Key, nat>
    var made: nat
    var live: map<nat, Receiver>
    var subs: nat
    var dropping: map<nat, Key>
    var failed: seq<Key>
    ghost var heard: map<nat, nat>

    ghost function View(): World
      reads this
    {
      World(channels, made, live, subs, dropping, failed, heard)
    }

    constructor ()
      ensures Start(View())
    {
      channels, made, live, subs, dropping, failed, heard := map[], 0, map[], 0, map[], [], map[];
    }

    /** `subscribe`: the channel at the key is made if there is none. */
    method Subscribe(key: Key) returns (sub: nat)
      modifies this
      ensures sub == old(subs) && Step(old(View()), Subscribes(key), View())
    {
      if key !in channels {
        channels := channels[key := made];
        made := made + 1;
      }
      sub := subs;
      live := live[sub := Receiver(key, channels[key])];
      heard := heard[sub := 0];
      subs := subs + 1;
    }

    /** `notify`, up to its collection. */
    method Send(key: Key)
      modifies this
      ensures Step(old(View()), Notifies(key), View())
    {
      ghost var to := if key in channels then Receivers(View(), channels[key]) else {};
      if key in channels {
        var channel := channels[key];
        var to := set s | s in live && live[s].channel == channel;
        if to == {} {
          failed := failed + [key];
        }
      }
      heard := map s | s in heard :: heard[s] + if s in to then 1 else 0;
    }

    /** `Subscription::drop`, up to its collection. */
    method Detach(sub: nat)
      requires sub in live
      modifies this
      ensures Step(old(View()), Detaches(sub), View())
    {
      dropping := dropping[sub := live[sub].key];
      live := live - {sub};
    }

    /** `gc_key`, for a drop whose receiver has gone. */
    method FinishDrop(sub: nat)
      requires sub in dropping
      modifies this
      ensures Step(old(View()), Collects(Drop(sub)), View())
    {
      RemoveIfUnheard(dropping[sub]);
      dropping := dropping - {sub};
    }

    /** `remove_if`, for a notification that found nobody. */
    method FinishNotify(i: nat)
      requires i < |failed|
      modifies this
      ensures Step(old(View()), Collects(Failure(i)), View())
    {
      RemoveIfUnheard(failed[i]);
      failed := failed[..i] + failed[i + 1..];
    }

    /** `remove_if`, of a channel without receivers. */
    method RemoveIfUnheard(key: Key)
      modifies this`channels
      ensures View() == Collected(old(View()), key)
    {
      if key in channels {
        var channel := channels[key];
        var to := set s | s in live && live[s].channel == channel;
        assert to == Receivers(View(), channel);
        if to == {} {
          channels := channels - {key};
        }
      }
    }

    /** `gc`, with nothing between its keys: every channel without receivers goes. */
    method Gc()
      modifies this`channels
      ensures channels == map k | k in old(channels) && Receivers(old(View()), old(channels)[k]) != {} :: old(channels)[k]
    {
      var todo := channels.Keys;
      while todo != {}
        invariant todo <= old(channels).Keys
        invariant channels == map k | k in old(channels) && (k in todo || Receivers(old(View()), old(channels)[k]) != {}) :: old(channels)[k]
        decreases |todo|
      {
        var key :| key in todo;
        assert Receivers(View(), channels[key]) == Receivers(old(View()), old(channels)[key]);
        RemoveIfUnheard(key);
        todo := todo - {key};
      }
    }
  }

  // ---- The key ----------------------------------------------------------

  const NUL := '\0'

  /** The part of a namespace before its facet. */
  function Base(provider: string): (b: string)
    ensures b <= provider && ':' !in b
    ensures |b| < |provider| ==> provider[|b|] == ':'
  {
    if provider == "" || provider[0] == ':' then "" else [provider[0]] + Base(provider[1..])
  }

  /** `make_watch_key`. */
  function WatchKey(provider: string, path: Option<string>): string {
    match path
    case Some(p) => Base(provider) + [NUL] + p
    case None => Base(provider)
  }

  lemma {:induction false} BaseOfFacet(provider: string, facet: string)
    requires ':' !in provider
    ensures Base(provider + ":" + facet) == provider && Base(provider) == provider
  {
    if provider != "" {
      BaseOfFacet(provider[1..], facet);
      assert (provider + ":" + facet)[1..] == provider[1..] + ":" + facet;
    }
  }

  /** A namespace and its facets share a key at each directory, and no two namespaces
      and no two directories do, as long as no namespace holds a NUL. */
  lemma KeyTellsApart(p: string, q: string, x: Option<string>, y: Option<string>)
    requires NUL !in p && NUL !in q
    ensures WatchKey(p, x) == WatchKey(q, y) <==> Base(p) == Base(q) && x == y
  {
    var a, b, m, n := WatchKey(p, x), WatchKey(q, y), |Base(p)|, |Base(q)|;
    assert forall i | 0 <= i < m :: a[i] == Base(p)[i] == p[i] != NUL;
    assert forall i | 0 <= i < n :: b[i] == Base(q)[i] == q[i] != NUL;
    assert m < |a| ==> a[m] == NUL;
    assert n < |b| ==> b[n] == NUL;
    if a == b {
      assert m == n;
      assert Base(p) == a[..m] && Base(q) == b[..n];
      if x.Some? && y.Some? {
        assert x.value == a[m + 1..] && y.value == b[n + 1..];
      }
    }
  }
}
