/** Whether a record may still be answered (src/cache.rs): the stat stamps of what it
    was made of, taken again and compared, and the window in which a stamp cannot yet
    tell one write from the next. Times are nanoseconds of the wall clock. */
module Validity {
  import opened Prelude
  import opened TreeStamps

  type Path = string

  /** `RACY`: 10 ms. */
  const RACY: nat := 10_000_000

  /** A stat stamp. `what` is all of it but the modification time. */
  datatype FileStamp = Unknown | Absent | Present(what: nat, mtime: nat)

  /** How much of a path matters: all its stamp says, or only that it is there. */
  datatype Regard = Whole | Presence

  /** An input: a path, as far as it matters. */
  type Input = (Path, Regard)

  /** An input's stamp, and when it was taken. */
  datatype Touch = Touch(path: Path, regard: Regard, at: nat, stamp: FileStamp)

  function InputOf(t: Touch): Input {
    (t.path, t.regard)
  }

  datatype Mount = Remote | Local(resolution: nat)

  /** The mount each path lies on. */
  type Mounts = Path -> Mount

  /** `Stamped`: the inputs with their stamps, and the clock read after the last. */
  datatype Inputs = Inputs(wall: nat, stamps: seq<Touch>, tree: Option<TreeStamp>)

  /** `Validity`: its `hash` is the stamps themselves, in order. */
  datatype Validity = Validity(stamps: seq<(Input, FileStamp)>, tree: Option<TreeStamp>, remote: bool, racyUntil: Option<nat>)

  datatype Check = Valid | Invalid | Unsure

  /** From when the stamp of a file with this modification time tells a write. */
  function Trusted(mtime: nat, resolution: nat): nat {
    mtime + Max(resolution, RACY)
  }

  predicate IsRemote(mounts: Mounts, t: Touch) {
    t.stamp.Present? && mounts(t.path).Remote?
  }

  /** The stamp was taken too soon after the file's modification time. */
  predicate IsRacy(mounts: Mounts, t: Touch) {
    t.stamp.Present? && mounts(t.path).Local? && t.at < Trusted(t.stamp.mtime, mounts(t.path).resolution)
  }

  /** The moment is the latest at which some racy stamp of `stamps` may be trusted. */
  ghost predicate IsLatest(mounts: Mounts, stamps: seq<Touch>, until: Option<nat>) {
    && (until.None? ==> forall i | 0 <= i < |stamps| :: !IsRacy(mounts, stamps[i]))
    && (until.Some? ==>
          && (exists i :: 0 <= i < |stamps| && IsRacy(mounts, stamps[i])
                && until.value == Trusted(stamps[i].stamp.mtime, mounts(stamps[i].path).resolution))
          && forall i | 0 <= i < |stamps| && IsRacy(mounts, stamps[i]) ::
               Trusted(stamps[i].stamp.mtime, mounts(stamps[i].path).resolution) <= until.value)
  }

  /** `Stamped::and_read`: later touches are added, but for those of an input already
      there, whose stamp is the earlier. */
  method AndRead(s: Inputs, read: seq<Touch>) returns (r: Inputs)
    ensures r.wall == s.wall && r.tree == s.tree && s.stamps <= r.stamps
    ensures forall t | t in read :: exists k :: 0 <= k < |r.stamps| && InputOf(r.stamps[k]) == InputOf(t)
    ensures forall k | |s.stamps| <= k < |r.stamps| ::
      r.stamps[k] in read && forall j | 0 <= j < k :: InputOf(r.stamps[j]) != InputOf(r.stamps[k])
  {
    var seen := set t | t in s.stamps :: InputOf(t);
    var stamps := s.stamps;
    for i := 0 to |read|
      invariant s.stamps <= stamps
      invariant forall p :: p in seen <==> exists k :: 0 <= k < |stamps| && InputOf(stamps[k]) == p
      invariant forall j | 0 <= j < i :: InputOf(read[j]) in seen
      invariant forall k | |s.stamps| <= k < |stamps| ::
        stamps[k] in read && forall j | 0 <= j < k :: InputOf(stamps[j]) != InputOf(stamps[k])
    {
      if InputOf(read[i]) !in seen {
        seen := seen + {InputOf(read[i])};
        ghost var before := stamps;
        stamps := stamps + [read[i]];
        assert InputOf(stamps[|before|]) == InputOf(read[i]);
        forall p | p in seen
          ensures exists k :: 0 <= k < |stamps| && InputOf(stamps[k]) == p
        {
          if p != InputOf(read[i]) {
            var k :| 0 <= k < |before| && InputOf(before[k]) == p;
            assert InputOf(stamps[k]) == p;
          }
        }
      }
    }
    r := s.(stamps := stamps);
  }

  /** The stamp of a local file there was taken too soon after the file's modification
      time: within the mount's resolution of it, or within 10 ms. */
  predicate TooSoon(mounts: Mounts, t: Touch) {
    && t.stamp.Present? && mounts(t.path).Local?
    && (t.at < t.stamp.mtime + mounts(t.path).resolution || t.at < t.stamp.mtime + 10_000_000)
  }

  /** `x` is late enough for the stamp: past the resolution, and past the 10 ms. */
  predicate LateEnough(mounts: Mounts, t: Touch, x: nat) {
    t.stamp.Present? && mounts(t.path).Local? ==>
      t.stamp.mtime + mounts(t.path).resolution <= x && t.stamp.mtime + 10_000_000 <= x
  }

  /** `x` is no earlier than the inputs, and late enough for every stamp taken too soon. */
  predicate PastRaces(mounts: Mounts, s: Inputs, x: nat) {
    s.wall <= x && forall i | 0 <= i < |s.stamps| && TooSoon(mounts, s.stamps[i]) :: LateEnough(mounts, s.stamps[i], x)
  }

  /** The stamps are racy until `until`: none is if it is absent; and else it is the first
      moment, from when the inputs were stamped on, that is late enough for every stamp
      taken too soon. */
  ghost predicate RacyUntil(mounts: Mounts, s: Inputs, until: Option<nat>) {
    && (until.None? <==> forall i | 0 <= i < |s.stamps| :: !TooSoon(mounts, s.stamps[i]))
    && (until.Some? ==> PastRaces(mounts, s, until.value) && forall x: nat | PastRaces(mounts, s, x) :: until.value <= x)
  }

  lemma LatestIsRacyUntil(mounts: Mounts, s: Inputs, until: Option<nat>)
    requires IsLatest(mounts, s.stamps, until)
    ensures RacyUntil(mounts, s, if until.Some? then Some(Max(s.wall, until.value)) else None)
  {
    forall i | 0 <= i < |s.stamps|
      ensures IsRacy(mounts, s.stamps[i]) <==> TooSoon(mounts, s.stamps[i])
      ensures TooSoon(mounts, s.stamps[i]) ==> forall x: nat ::
        LateEnough(mounts, s.stamps[i], x) <==> Trusted(s.stamps[i].stamp.mtime, mounts(s.stamps[i].path).resolution) <= x
    {
    }
    if until.Some? {
      var k :| 0 <= k < |s.stamps| && IsRacy(mounts, s.stamps[k])
                 && until.value == Trusted(s.stamps[k].stamp.mtime, mounts(s.stamps[k].path).resolution);
      assert TooSoon(mounts, s.stamps[k]);
    }
  }

  function StampsOf(stamps: seq<Touch>): seq<(Input, FileStamp)> {
    seq(|stamps|, i requires 0 <= i < |stamps| => (InputOf(stamps[i]), stamps[i].stamp))
  }

  /** `Validity::of`. */
  method Of(s: Inputs, mounts: Mounts) returns (v: Option<Validity>)
    ensures v.None? <==> s.stamps == [] && s.tree.None?
    ensures v.Some? ==>
      && v.value.stamps == StampsOf(s.stamps) && v.value.tree == s.tree
      && (v.value.remote <==> exists i :: 0 <= i < |s.stamps| && IsRemote(mounts, s.stamps[i]))
      && RacyUntil(mounts, s, v.value.racyUntil)
  {
    if s.stamps == [] && s.tree.None? {
      return None;
    }
    var remote := false;
    var until: Option<nat> := None;
    for i := 0 to |s.stamps|
      invariant remote <==> exists j :: 0 <= j < i && IsRemote(mounts, s.stamps[j])
      invariant IsLatest(mounts, s.stamps[..i], until)
    {
      var t := s.stamps[i];
      ghost var before := until;
      if t.stamp.Present? {
        match mounts(t.path) {
          case Remote => remote := true;
          case Local(resolution) =>
            var trusted := Trusted(t.stamp.mtime, resolution);
            if t.at < trusted {
              until := Some(if until.Some? then Max(until.value, trusted) else trusted);
            }
        }
      }
      LatestOfMore(mounts, s.stamps, i, before, until);
    }
    assert s.stamps[..|s.stamps|] == s.stamps;
    LatestIsRacyUntil(mounts, s, until);
    v := Some(Validity(StampsOf(s.stamps), s.tree, remote, if until.Some? then Some(Max(s.wall, until.value)) else None));
  }

  lemma LatestOfMore(mounts: Mounts, stamps: seq<Touch>, i: nat, before: Option<nat>, until: Option<nat>)
    requires i < |stamps| && IsLatest(mounts, stamps[..i], before)
    requires until == if !IsRacy(mounts, stamps[i]) then before
                      else var trusted := Trusted(stamps[i].stamp.mtime, mounts(stamps[i].path).resolution);
                           Some(if before.Some? then Max(before.value, trusted) else trusted)
    ensures IsLatest(mounts, stamps[..i + 1], until)
  {
    var less, more := stamps[..i], stamps[..i + 1];
    assert more[i] == stamps[i] && forall j | 0 <= j < i :: more[j] == less[j];
    if until.Some? {
      if IsRacy(mounts, stamps[i]) && until.value == Trusted(stamps[i].stamp.mtime, mounts(stamps[i].path).resolution) {
        assert IsRacy(mounts, more[i]);
      } else {
        var j :| 0 <= j < i && IsRacy(mounts, less[j])
                 && before.value == Trusted(less[j].stamp.mtime, mounts(less[j].path).resolution);
        assert IsRacy(mounts, more[j]);
      }
    }
  }

  /** What each input's stamp is at the moment of a check. */
  type Stat = Input -> FileStamp

  /** `check_at`. */
  method CheckAt(v: Validity, trees: Trees, stat: Stat, now: nat) returns (c: Check)
    ensures c.Valid? <==>
      && !(v.tree.Some? && Moved(trees, v.tree.value)) && !v.remote
      && (forall i | 0 <= i < |v.stamps| :: stat(v.stamps[i].0) == v.stamps[i].1 != Unknown)
      && !(v.racyUntil.Some? && now >= v.racyUntil.value)
    ensures c.Unsure? <==>
      && !(v.tree.Some? && Moved(trees, v.tree.value))
      && (v.remote || exists i :: 0 <= i < |v.stamps| && stat(v.stamps[i].0).Unknown?)
  {
    if v.tree.Some? && Moved(trees, v.tree.value) {
      return Invalid;
    }
    if v.remote {
      return Unsure;
    }
    var stamped: seq<(Input, FileStamp)> := [];
    for i := 0 to |v.stamps|
      invariant |stamped| == i
      invariant forall j | 0 <= j < i :: stamped[j] == (v.stamps[j].0, stat(v.stamps[j].0)) && stat(v.stamps[j].0) != Unknown
    {
      var s := stat(v.stamps[i].0);
      if s == Unknown {
        return Unsure;
      }
      stamped := stamped + [(v.stamps[i].0, s)];
    }
    assert stamped == v.stamps <==> forall i | 0 <= i < |v.stamps| :: stat(v.stamps[i].0) == v.stamps[i].1;
    if stamped != v.stamps || (v.racyUntil.Some? && now >= v.racyUntil.value) {
      return Invalid;
    }
    return Valid;
  }

  // ---- The racy window --------------------------------------------------

  /** A write, and the modification time it leaves. */
  datatype Write = Write(at: nat, mtime: nat)

  /** The writes of each path, in order. */
  type Disk = Path -> seq<Write>

  /** A file system stamps a write with its own clock: rounded down to its resolution, or
      behind by less than 10 ms. */
  predicate Ticks(resolution: nat, w: Write) {
    && w.mtime <= w.at
    && ((resolution > 0 && w.mtime == w.at - w.at % resolution) || w.at - w.mtime < 10_000_000)
  }

  /** Write `k` is the last by `now`. */
  predicate IsLast(writes: seq<Write>, k: nat, now: nat) {
    k < |writes| && writes[k].at <= now && (k + 1 < |writes| ==> now < writes[k + 1].at)
  }

  /** The file's stamp, where all of it matters, is as the last write left it. */
  ghost predicate OnDisk(mounts: Mounts, disk: Disk, stat: Stat, path: Path, now: nat) {
    var writes := disk(path);
    && (forall i, j | 0 <= i < j < |writes| :: writes[i].at <= writes[j].at)
    && (mounts(path).Local? ==> forall i | 0 <= i < |writes| :: Ticks(mounts(path).resolution, writes[i]))
    && (stat((path, Whole)).Present? ==>
          forall k: nat {:trigger IsLast(writes, k, now)} | IsLast(writes, k, now) :: stat((path, Whole)).mtime == writes[k].mtime)
  }

  lemma {:induction false} SomeLast(writes: seq<Write>, i: nat, now: nat) returns (k: nat)
    requires i < |writes| && writes[i].at <= now
    requires forall i, j | 0 <= i < j < |writes| :: writes[i].at <= writes[j].at
    ensures IsLast(writes, k, now) && i <= k
    decreases |writes| - i
  {
    if i + 1 < |writes| && writes[i + 1].at <= now {
      k := SomeLast(writes, i + 1, now);
    } else {
      k := i;
    }
  }

  /** However coarse a mount is, a stamp within its resolution of the modification time keeps
      the whole racy until that has passed. */
  lemma CoarseStaysRacy(mounts: Mounts, s: Inputs, until: Option<nat>, i: nat)
    requires RacyUntil(mounts, s, until) && i < |s.stamps| && s.stamps[i].stamp.Present? && mounts(s.stamps[i].path).Local?
    requires s.stamps[i].at < s.stamps[i].stamp.mtime + mounts(s.stamps[i].path).resolution
    ensures until.Some? && s.stamps[i].stamp.mtime + mounts(s.stamps[i].path).resolution <= until.value
  {
    assert TooSoon(mounts, s.stamps[i]);
    assert until.Some?;
    assert LateEnough(mounts, s.stamps[i], until.value);
  }

  /** A write after the stamp of a file leaves another modification time, if the stamp was
      not taken too soon after the one it shows. */
  lemma StampTells(mounts: Mounts, disk: Disk, stat: Stat, t: Touch, now: nat, i: nat)
    requires t.stamp.Present? && mounts(t.path).Local? && !TooSoon(mounts, t)
    requires OnDisk(mounts, disk, stat, t.path, now) && stat((t.path, Whole)).Present?
    requires i < |disk(t.path)| && t.at < disk(t.path)[i].at <= now
    ensures stat((t.path, Whole)).mtime != t.stamp.mtime
  {
    var k := SomeLast(disk(t.path), i, now);
    var w := disk(t.path)[k];
    assert Ticks(mounts(t.path).resolution, w);
    assert w.at >= disk(t.path)[i].at;
    var resolution := mounts(t.path).resolution;
    assert resolution > 0 ==> w.at % resolution < resolution;
  }

  /** Whether the stamp is one the promise is about: of a local file there at its stamp,
      all of which matters. */
  predicate IsPromised(mounts: Mounts, t: Touch) {
    t.regard.Whole? && t.stamp.Present? && mounts(t.path).Local?
  }

  /** The validity a run's inputs are given, and a check of it: an answer of Valid given
      once it is late enough for every stamp means that no such input has been written
      since it was stamped, however many inputs there are, whatever the resolutions of
      their mounts, and whenever each was stamped. */
  method CheckStamped(s: Inputs, mounts: Mounts, trees: Trees, stat: Stat, now: nat, ghost disk: Disk)
    returns (c: Option<Check>)
    requires forall i | 0 <= i < |s.stamps| :: OnDisk(mounts, disk, stat, s.stamps[i].path, now)
    ensures c.None? <==> s.stamps == [] && s.tree.None?
    ensures c == Some(Valid) && s.wall <= now && (forall j | 0 <= j < |s.stamps| :: LateEnough(mounts, s.stamps[j], now)) ==>
      forall i, k: nat | 0 <= i < |s.stamps| && IsPromised(mounts, s.stamps[i]) && k < |disk(s.stamps[i].path)| ::
        !(s.stamps[i].at < disk(s.stamps[i].path)[k].at <= now)
  {
    hide OnDisk, LateEnough, TooSoon, RacyUntil;
    var v := Of(s, mounts);
    if v.None? {
      return None;
    }
    var answer := CheckAt(v.value, trees, stat, now);
    if answer.Valid? && s.wall <= now && forall j | 0 <= j < |s.stamps| :: LateEnough(mounts, s.stamps[j], now) {
      forall i, k: nat | 0 <= i < |s.stamps| && IsPromised(mounts, s.stamps[i]) && k < |disk(s.stamps[i].path)|
        ensures !(s.stamps[i].at < disk(s.stamps[i].path)[k].at <= now)
      {
        ValidIsUnwritten(s, mounts, v.value, stat, now, disk, i, k);
      }
    }
    return Some(answer);
  }

  lemma ValidIsUnwritten(s: Inputs, mounts: Mounts, v: Validity, stat: Stat, now: nat, disk: Disk, i: nat, k: nat)
    requires v.stamps == StampsOf(s.stamps) && RacyUntil(mounts, s, v.racyUntil)
    requires forall j | 0 <= j < |v.stamps| :: stat(v.stamps[j].0) == v.stamps[j].1
    requires !(v.racyUntil.Some? && now >= v.racyUntil.value)
    requires s.wall <= now && forall j | 0 <= j < |s.stamps| :: LateEnough(mounts, s.stamps[j], now)
    requires i < |s.stamps| && IsPromised(mounts, s.stamps[i]) && OnDisk(mounts, disk, stat, s.stamps[i].path, now)
    requires k < |disk(s.stamps[i].path)|
    ensures !(s.stamps[i].at < disk(s.stamps[i].path)[k].at <= now)
  {
    hide OnDisk, LateEnough, TooSoon;
    var t := s.stamps[i];
    assert v.stamps[i] == (InputOf(t), t.stamp);
    assert PastRaces(mounts, s, now);
    assert !TooSoon(mounts, t);
    if t.at < disk(t.path)[k].at <= now {
      StampTells(mounts, disk, stat, t, now, k);
    }
  }

  /** Before that it may be wrong: on a mount that keeps whole seconds, a file of second 0
      stamped 20 ms in and written half a second in has the stamp it had. A check of it
      then finds the stamp as it was, in its racy window, which ends with the second. */
  lemma RacyMissesAWrite(path: Path) returns (s: Inputs, stat: Stat, disk: Disk)
    ensures var mounts: Mounts := (_: Path) => Local(1_000_000_000);
      && s == Inputs(20_000_000, [Touch(path, Whole, 20_000_000, Present(0, 0))], None)
      && stat((path, Whole)) == s.stamps[0].stamp && OnDisk(mounts, disk, stat, path, 600_000_000)
      && disk(path) == [Write(500_000_000, 0)]
      && RacyUntil(mounts, s, Some(1_000_000_000))
  {
    var mounts: Mounts := (_: Path) => Local(1_000_000_000);
    s := Inputs(20_000_000, [Touch(path, Whole, 20_000_000, Present(0, 0))], None);
    stat, disk := (_: Input) => Present(0, 0), (_: Path) => [Write(500_000_000, 0)];
    assert TooSoon(mounts, s.stamps[0]);
    forall x: nat | PastRaces(mounts, s, x)
      ensures 1_000_000_000 <= x
    {
      assert LateEnough(mounts, s.stamps[0], x);
    }
  }
}
