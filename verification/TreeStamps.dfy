/** The file events of watched trees (src/cache.rs): what a run notes of them before
    it begins, and whether that has moved by the time its record is read. */
module TreeStamps {
  import opened Prelude

  /** An instance: its provider and Source, and its directory. */
  type Key = (string, Option<string>)

  /** `TreeEvents`. */
  datatype Events = Events(changes: nat, gone: bool)

  /** The events of each instance watched now, by their number; a record may hold
      events no instance has any more. */
  datatype Trees = Trees(watch: map<Key, nat>, events: seq<Events>)

  const NO_TREES := Trees(map[], [])

  /** `TreeStamp`: some events as a run found them. */
  datatype TreeStamp = TreeStamp(events: nat, changes: nat)

  predicate Moved(t: Trees, s: TreeStamp) {
    s.events < |t.events| ==> t.events[s.events].gone || t.events[s.events].changes != s.changes
  }

  /** `tree_is_watched`. */
  predicate IsWatched(t: Trees, k: Key) {
    k in t.watch && t.watch[k] < |t.events| && !t.events[t.watch[k]].gone
  }

  function Gone(events: seq<Events>, at: nat): seq<Events> {
    if at < |events| then events[at := events[at].(gone := true)] else events
  }

  // ---- Steps ------------------------------------------------------------

  datatype Op = Watch(key: Key) | Unwatch(key: Key) | Forget(key: Key) | Change(key: Key) | Take(key: Key)

  /** `tree_watched`, `tree_unwatched`, `tree_forget`, `tree_changed`, and the events a
      `tree_stamp` of a tree not watched yet makes of its own: gone from the start. */
  function After(t: Trees, op: Op): Trees {
    match op
    case Watch(k) =>
      var events := if k in t.watch then Gone(t.events, t.watch[k]) else t.events;
      Trees(t.watch[k := |events|], events + [Events(0, false)])
    case Unwatch(k) => if k in t.watch then t.(events := Gone(t.events, t.watch[k])) else t
    case Forget(k) => t.(watch := t.watch - {k})
    case Change(k) =>
      if k in t.watch && t.watch[k] < |t.events|
      then t.(events := t.events[t.watch[k] := t.events[t.watch[k]].(changes := t.events[t.watch[k]].changes + 1)])
      else t
    case Take(k) => if k in t.watch then t else t.(events := t.events + [Events(0, true)])
  }

  /** `tree_stamp`. */
  function Stamped(t: Trees, k: Key): TreeStamp {
    if k in t.watch && t.watch[k] < |t.events| then TreeStamp(t.watch[k], t.events[t.watch[k]].changes)
    else TreeStamp(|t.events|, 0)
  }

  ghost predicate Run(ts: seq<Trees>, ops: seq<Op>) {
    && |ts| == |ops| + 1 && ts[0] == NO_TREES
    && forall i | 0 <= i < |ops| :: ts[i + 1] == After(ts[i], ops[i])
  }

  // ---- What stays -------------------------------------------------------

  ghost predicate Inv(t: Trees) {
    && (forall k | k in t.watch :: t.watch[k] < |t.events|)
    && (forall k, j | k in t.watch && j in t.watch && t.watch[k] == t.watch[j] :: k == j)
  }

  lemma {:induction false} RunInv(ts: seq<Trees>, ops: seq<Op>, i: nat)
    requires Run(ts, ops) && i < |ts|
    ensures Inv(ts[i])
  {
    if i > 0 {
      RunInv(ts, ops, i - 1);
      assert ts[i - 1 + 1] == After(ts[i - 1], ops[i - 1]);
    }
  }

  /** The operations that say the tree of `k` may have changed. */
  predicate Touches(op: Op, k: Key) {
    op == Watch(k) || op == Unwatch(k) || op == Change(k)
  }

  /** The events of a stamp, `n` steps on: nothing of `k` has happened, and they are as
      they were; or they have moved. */
  predicate StandsOrMoved(t: Trees, k: Key, s: TreeStamp, still: bool) {
    && s.events < |t.events|
    && (if still then k in t.watch && t.watch[k] == s.events && t.events[s.events] == Events(s.changes, false)
        else t.events[s.events].gone || t.events[s.events].changes > s.changes)
    && (k in t.watch || t.events[s.events].gone)
  }

  lemma OneStep(t: Trees, op: Op, k: Key, s: TreeStamp, still: bool)
    requires Inv(t) && StandsOrMoved(t, k, s, still) && op != Forget(k)
    ensures StandsOrMoved(After(t, op), k, s, still && !Touches(op, k))
  {
  }

  /** Some operation from `i` on, before `j`, touches the tree of `k`. */
  ghost predicate Touched(ops: seq<Op>, i: nat, j: nat, k: Key) {
    exists m :: i <= m < j && m < |ops| && Touches(ops[m], k)
  }

  lemma StampStarts(t: Trees, k: Key)
    requires Inv(t)
    ensures StandsOrMoved(After(t, Take(k)), k, Stamped(t, k), IsWatched(t, k))
  {
  }

  lemma TouchedMore(ops: seq<Op>, i: nat, j: nat, k: Key)
    requires i <= j < |ops|
    ensures Touched(ops, i, j + 1, k) <==> Touched(ops, i, j, k) || Touches(ops[j], k)
  {
    if Touches(ops[j], k) {
      assert i <= j < j + 1 && Touches(ops[j], k);
    }
    if Touched(ops, i, j, k) {
      var m :| i <= m < j && m < |ops| && Touches(ops[m], k);
      assert i <= m < j + 1 && Touches(ops[m], k);
    }
  }

  lemma {:induction false} FromStamp(ts: seq<Trees>, ops: seq<Op>, i: nat, j: nat, k: Key)
    requires Run(ts, ops) && i < j < |ts| && ops[i] == Take(k)
    requires forall m | i < m < j :: ops[m] != Forget(k)
    ensures StandsOrMoved(ts[j], k, Stamped(ts[i], k), IsWatched(ts[i], k) && !Touched(ops, i + 1, j, k))
    decreases j
  {
    hide After, StandsOrMoved, Inv, Touched, Touches, IsWatched, Stamped;
    RunInv(ts, ops, j - 1);
    assert ts[j - 1 + 1] == After(ts[j - 1], ops[j - 1]);
    if j == i + 1 {
      StampStarts(ts[i], k);
      NotTouchedYet(ops, i + 1, k);
    } else {
      FromStamp(ts, ops, i, j - 1, k);
      OneStep(ts[j - 1], ops[j - 1], k, Stamped(ts[i], k), IsWatched(ts[i], k) && !Touched(ops, i + 1, j - 1, k));
      TouchedMore(ops, i + 1, j - 1, k);
    }
  }

  lemma NotTouchedYet(ops: seq<Op>, i: nat, k: Key)
    ensures !Touched(ops, i, i, k)
  {
  }

  /** Over every history in which the instance is not forgotten, a stamp stands if and
      only if the tree was watched when it was taken and, since, it has not changed and
      its watch has neither ended nor been made again. */
  lemma StampIsExact(ts: seq<Trees>, ops: seq<Op>, i: nat, j: nat, k: Key)
    requires Run(ts, ops) && i < j < |ts| && ops[i] == Take(k)
    requires forall m | i < m < j :: ops[m] != Forget(k)
    ensures !Moved(ts[j], Stamped(ts[i], k)) <==> IsWatched(ts[i], k) && !Touched(ops, i + 1, j, k)
  {
    FromStamp(ts, ops, i, j, k);
  }

  /** No instance holds the events of the stamp any more, and they stand as it has them. */
  predicate Loose(t: Trees, s: TreeStamp) {
    && s.events < |t.events| && t.events[s.events] == Events(s.changes, false)
    && forall k | k in t.watch :: t.watch[k] != s.events
  }

  lemma LooseStep(t: Trees, op: Op, s: TreeStamp)
    requires Inv(t) && Loose(t, s)
    ensures Loose(After(t, op), s)
  {
  }

  lemma {:induction false} StaysLoose(ts: seq<Trees>, ops: seq<Op>, i: nat, j: nat, s: TreeStamp)
    requires Run(ts, ops) && i <= j < |ts| && Loose(ts[i], s)
    ensures Loose(ts[j], s)
    decreases j
  {
    if i < j {
      hide Loose, After, Inv;
      StaysLoose(ts, ops, i, j - 1, s);
      RunInv(ts, ops, j - 1);
      LooseStep(ts[j - 1], ops[j - 1], s);
      assert ts[j - 1 + 1] == After(ts[j - 1], ops[j - 1]);
    }
  }

  lemma ForgottenIsLoose(t: Trees, k: Key, s: TreeStamp)
    requires Inv(t) && StandsOrMoved(t, k, s, true)
    ensures Loose(After(t, Forget(k)), s)
  {
  }

  /** An instance forgotten leaves its events to no one: over every history, a stamp of it
      that stood when it was forgotten stands ever after, whatever happens to the tree.
      Its records are to go with it. */
  lemma ForgetFreezes(ts: seq<Trees>, ops: seq<Op>, h: nat, i: nat, j: nat, k: Key)
    requires Run(ts, ops) && h < i < j < |ts| && ops[h] == Take(k) && ops[i] == Forget(k)
    requires forall m | h < m < i :: ops[m] != Forget(k)
    requires !Moved(ts[i], Stamped(ts[h], k))
    ensures !Moved(ts[j], Stamped(ts[h], k))
  {
    var s := Stamped(ts[h], k);
    FromStamp(ts, ops, h, i, k);
    RunInv(ts, ops, i);
    ForgottenIsLoose(ts[i], k, s);
    assert ts[i + 1] == After(ts[i], ops[i]);
    StaysLoose(ts, ops, i + 1, j, s);
  }

  // ---- In place ---------------------------------------------------------

  class TreeMap {
    var watch: map<Key, nat>
    var events: seq<Events>

    /** `trees_watchable`: a scheduler serves the cache. */
    var watchable: bool

    ghost function View(): Trees
      reads this
    {
      Trees(watch, events)
    }

    constructor ()
      ensures View() == NO_TREES && !watchable
    {
      watch, events, watchable := map[], [], false;
    }

    method MakeWatchable()
      modifies this`watchable
      ensures watchable
    {
      watchable := true;
    }

    /** `tree_watched`: the events there were are gone, and new ones begin. */
    method Watched(k: Key)
      requires Inv(View())
      modifies this`watch, this`events
      ensures Inv(View()) && View() == After(old(View()), Watch(k))
    {
      if k in watch {
        events := events[watch[k] := events[watch[k]].(gone := true)];
      }
      watch := watch[k := |events|];
      events := events + [Events(0, false)];
    }

    method Unwatched(k: Key)
      requires Inv(View())
      modifies this`events
      ensures Inv(View()) && View() == After(old(View()), Unwatch(k))
    {
      if k in watch {
        events := events[watch[k] := events[watch[k]].(gone := true)];
      }
    }

    method Forgotten(k: Key)
      requires Inv(View())
      modifies this`watch
      ensures Inv(View()) && View() == After(old(View()), Forget(k))
    {
      watch := watch - {k};
    }

    method Changed(k: Key)
      requires Inv(View())
      modifies this`events
      ensures Inv(View()) && View() == After(old(View()), Change(k))
    {
      if k in watch {
        events := events[watch[k] := events[watch[k]].(changes := events[watch[k]].changes + 1)];
      }
    }

    /** `tree_stamp`: with no scheduler there is none to give. */
    method Stamp(k: Key) returns (s: Option<TreeStamp>)
      requires Inv(View())
      modifies this`events
      ensures Inv(View()) && (s.Some? <==> watchable)
      ensures s.None? ==> View() == old(View())
      ensures s.Some? ==>
        View() == After(old(View()), Take(k)) && s.value == Stamped(old(View()), k) && s.value.events < |events|
    {
      if !watchable {
        return None;
      }
      if k in watch {
        s := Some(TreeStamp(watch[k], events[watch[k]].changes));
      } else {
        s := Some(TreeStamp(|events|, 0));
        events := events + [Events(0, true)];
      }
    }
  }
}
