/** The directories a read consults (src/query.rs): the chain of entries up from where
    it stands, and the walk up a Source's instances, whatever the Source's `root`
    answers. */
module Walk {
  import opened Prelude

  /** An absolute directory, as its names from `/`. */
  type Directory = seq<string>

  /** A cache entry's address; `None` is the global entry, and the instance at `~`. */
  type Link = Option<Directory>

  const MAX_INSTANCES: nat := 64

  ghost predicate Distinct(links: seq<Link>) {
    forall i, j | 0 <= i < j < |links| :: links[i] != links[j]
  }

  /** The global entry is there once, last. */
  ghost predicate EndsGlobal(links: seq<Link>) {
    links != [] && links[|links| - 1] == None && forall i | 0 <= i < |links| - 1 :: links[i].Some?
  }

  // ---- The directory chain ----------------------------------------------

  /** How many directories the chain from `p` has: those below `$HOME` when `p` is
      under it, and all of them up to `/` when it is not. */
  function Levels(p: Directory, home: Option<Directory>): nat {
    if home.Some? && home.value <= p then |p| - |home.value| else |p| + 1
  }

  /** The links are `p` and each directory above it that the chain reaches, nearest
      first, and then the global entry. */
  ghost predicate IsPathChain(links: seq<Link>, path: Link, home: Option<Directory>) {
    match path
    case None => links == [None]
    case Some(p) =>
      && |links| == Levels(p, home) + 1
      && links[|links| - 1] == None
      && forall i | 0 <= i < |links| - 1 :: links[i] == Some(p[..|p| - i])
  }

  /** `path_chain`. */
  method PathChain(path: Link, home: Option<Directory>) returns (links: seq<Link>)
    ensures IsPathChain(links, path, home)
  {
    if path.None? {
      return [None];
    }
    var p := path.value;
    links := [];
    var current: Link := Some(p);
    assert p[..|p|] == p;
    while current.Some? && home != current
      invariant |links| <= Levels(p, home)
      invariant forall i | 0 <= i < |links| :: links[i] == Some(p[..|p| - i])
      invariant current == if |links| <= |p| then Some(p[..|p| - |links|]) else None
      decreases |p| + 1 - |links|
    {
      var dir := current.value;
      assert home.Some? && home.value <= p ==> p[..|home.value|] == home.value;
      assert dir != [] ==> dir[..|dir| - 1] == p[..|dir| - 1];
      links := links + [current];
      current := if dir == [] then None else Some(dir[..|dir| - 1]);
    }
    links := links + [None];
  }

  /** The chain reaches a directory above `p` just when `$HOME` does not cut it off,
      never twice, and ends at the global entry. */
  lemma PathChainReaches(links: seq<Link>, path: Link, home: Option<Directory>)
    requires IsPathChain(links, path, home)
    ensures Distinct(links) && EndsGlobal(links)
    ensures forall d {:trigger Some(d) in links} :: Some(d) in links <==>
      path.Some? && d <= path.value && !(home.Some? && home.value <= path.value && d <= home.value)
  {
    if path.Some? {
      var p := path.value;
      forall d
        ensures Some(d) in links <==> d <= p && !(home.Some? && home.value <= p && d <= home.value)
      {
        if d <= p && |d| > |p| - Levels(p, home) {
          assert links[|p| - |d|] == Some(p[..|d|]) && p[..|d|] == d;
        }
      }
    }
  }

  // ---- The read chain ---------------------------------------------------

  /** `read_chain`: each root a read reached that the directory chain does not. */
  method ReadChain(requested: Link, extra: seq<Link>, home: Option<Directory>) returns (chain: seq<Link>, ghost suffix: seq<Link>)
    ensures IsPathChain(suffix, requested, home)
    ensures |suffix| <= |chain| && chain[|chain| - |suffix|..] == suffix
    ensures Distinct(chain) && EndsGlobal(chain)
    ensures forall r :: r in chain <==> r in suffix || r in extra
  {
    var onChain := PathChain(requested, home);
    suffix := onChain;
    PathChainReaches(onChain, requested, home);
    var front: seq<Link> := [];
    for k := 0 to |extra|
      invariant Distinct(front)
      invariant forall r :: r in front <==> r in extra[..k] && r !in onChain
    {
      assert extra[..k + 1] == extra[..k] + [extra[k]];
      if extra[k] !in onChain && extra[k] !in front {
        front := front + [extra[k]];
      }
    }
    assert extra[..|extra|] == extra;
    chain := front + onChain;
    Appended(front, onChain);
  }

  lemma Appended(front: seq<Link>, chain: seq<Link>)
    requires Distinct(front) && Distinct(chain) && EndsGlobal(chain)
    requires forall r | r in front :: r !in chain
    ensures Distinct(front + chain) && EndsGlobal(front + chain)
    ensures (front + chain)[|front|..] == chain
  {
    var all := front + chain;
    forall i, j | 0 <= i < j < |all|
      ensures all[i] != all[j]
    {
      if i < |front| <= j {
        assert all[i] in front && all[j] in chain;
      }
    }
    forall i | 0 <= i < |all| - 1
      ensures all[i].Some?
    {
      if i < |front| {
        assert all[i] in front && chain[|chain| - 1] in chain;
      }
    }
  }

  // ---- The instance walk ------------------------------------------------

  datatype Ask = Done | Home | Root(dir: Directory)

  /** What a Source's `root` found: a directory, `$HOME` itself, or none. */
  datatype Found = At(root: Directory) | AtHome | Nothing

  /** Why a walk failed. */
  datatype Failure = ChainOver | DoesNotSettle | Unresolved(why: string)

  /** The question that leads on from the instances seen: none once `~` is among them, or
      once a nearest Source has one at all. */
  function AskOf(start: Link, nearest: bool, home: Option<Directory>, seen: seq<Link>): Ask {
    if seen == [] then
      match (start, nearest)
      case (Some(dir), _) => Root(dir)
      case (None, true) => if home.Some? then Root(home.value) else Home
      case (None, false) => Home
    else if nearest then Done
    else
      match seen[|seen| - 1]
      case None => Done
      case Some(root) =>
        if root == [] || home == Some(root[..|root| - 1]) then Home else Root(root[..|root| - 1])
  }

  /** The instance an answer makes: one already visited is the instance at `~`. */
  function NextOf(found: Found, seen: seq<Link>): Link {
    if found.At? && Some(found.root) !in seen then Some(found.root) else None
  }

  /** The walks a step may have come to: no instance twice, `~` only last, 64 at most,
      and of a nearest Source one. */
  ghost predicate Walked(nearest: bool, seen: seq<Link>) {
    && Distinct(seen)
    && (forall i | 0 <= i < |seen| - 1 :: seen[i].Some?)
    && |seen| <= MAX_INSTANCES
    && (nearest ==> |seen| <= 1)
  }

  predicate IsParent(dir: Directory, of: Link) {
    of.Some? && of.value != [] && dir == of.value[..|of.value| - 1]
  }

  class InstanceWalk {
    const start: Link
    const nearest: bool
    const home: Option<Directory>
    var seen: seq<Link>
    var over: bool

    ghost predicate Valid()
      reads this
    {
      Walked(nearest, seen) && (over ==> nearest && seen == [])
    }

    constructor (dir: Link, nearest: bool, home: Option<Directory>)
      ensures Valid() && seen == [] && !over
      ensures start == dir && this.nearest == nearest && this.home == home
    {
      start, this.nearest, this.home := dir, nearest, home;
      seen, over := [], false;
    }

    /** `ask`. */
    function Asks(): (ask: Ask)
      reads this
      ensures ask.Done? <==> over || (seen != [] && (nearest || seen[|seen| - 1].None?))
      ensures seen == [] && start.Some? && !over ==> ask == Root(start.value)
      ensures seen == [] && start.None? && !over ==> ask == if nearest && home.Some? then Root(home.value) else Home
      ensures ask.Root? && seen != [] ==> IsParent(ask.dir, seen[|seen| - 1]) && home != Some(ask.dir)
      ensures ask.Home? && seen != [] ==>
        seen[|seen| - 1].Some? && (seen[|seen| - 1].value == [] || (home.Some? && IsParent(home.value, seen[|seen| - 1])))
      ensures !over ==> ask == AskOf(start, nearest, home, seen)
    {
      if over then Done else AskOf(start, nearest, home, seen)
    }

    /** `step`: the next instance, or that a nearest walk found none at all. */
    method Step(answer: Found) returns (out: Result<Option<Link>, Failure>)
      requires Valid()
      modifies this
      ensures Valid()
      ensures old(Asks()).Done? ==> out == Err(ChainOver) && seen == old(seen) && over == old(over)
      ensures old(Asks()).Root? && answer.Nothing? && nearest ==> out == Ok(None) && over && seen == old(seen)
      ensures !old(Asks()).Done? && !(old(Asks()).Root? && answer.Nothing? && nearest) ==>
        var next := if old(Asks()).Root? then NextOf(answer, old(seen)) else None;
        && over == old(over)
        && (|old(seen)| < MAX_INSTANCES ==> out == Ok(Some(next)) && seen == old(seen) + [next])
        && (|old(seen)| == MAX_INSTANCES ==> out == Err(DoesNotSettle) && seen == old(seen))
    {
      var next: Link;
      match Asks() {
        case Done => return Err(ChainOver);
        case Home => next := None;
        case Root(_) =>
          match answer {
            case At(root) => next := Some(root);
            case AtHome => next := None;
            case Nothing =>
              if nearest {
                over := true;
                return Ok(None);
              }
              next := None;
          }
      }
      if next.Some? && next in seen {
        next := None;
      }
      if |seen| >= MAX_INSTANCES {
        return Err(DoesNotSettle);
      }
      seen := seen + [next];
      return Ok(Some(next));
    }
  }

  /** A Source's `root` line, asked for the `n`th time: it may fail, or not be known
      yet, and owes the same directory nothing from one time to the next. */
  type Resolve = (nat, Directory) -> Result<Option<Found>, string>

  type Chain = Result<Option<seq<Link>>, Failure>

  /** The walk from `seen` on, the `n`th question next. */
  function WalkFrom(start: Link, nearest: bool, home: Option<Directory>, seen: seq<Link>, resolve: Resolve, n: nat): Chain
    requires |seen| <= MAX_INSTANCES
    decreases MAX_INSTANCES - |seen|
  {
    match AskOf(start, nearest, home, seen)
    case Done => Ok(Some(seen))
    case Home => Onward(start, nearest, home, seen, None, resolve, n)
    case Root(dir) =>
      match resolve(n, dir)
      case Err(why) => Err(Unresolved(why))
      case Ok(None) => Ok(None)
      case Ok(Some(found)) =>
        if found.Nothing? && nearest then Ok(Some(seen))
        else Onward(start, nearest, home, seen, NextOf(found, seen), resolve, n)
  }

  /** One instance more, but for the 65th. */
  function Onward(start: Link, nearest: bool, home: Option<Directory>, seen: seq<Link>, next: Link, resolve: Resolve, n: nat): Chain
    requires |seen| <= MAX_INSTANCES
    decreases MAX_INSTANCES - |seen|, 0
  {
    if |seen| == MAX_INSTANCES then Err(DoesNotSettle)
    else WalkFrom(start, nearest, home, seen + [next], resolve, n + 1)
  }

  /** `collect`, of a new walk. */
  method Collect(walk: InstanceWalk, resolve: Resolve) returns (out: Chain)
    requires walk.Valid() && walk.seen == [] && !walk.over
    modifies walk
    ensures out == WalkFrom(walk.start, walk.nearest, walk.home, [], resolve, 0)
    ensures out.Ok? && out.value.Some? ==> out.value.value == walk.seen
  {
    var chain: seq<Link> := [];
    var n := 0;
    while true
      invariant walk.Valid() && !walk.over && chain == walk.seen
      invariant WalkFrom(walk.start, walk.nearest, walk.home, [], resolve, 0) ==
        WalkFrom(walk.start, walk.nearest, walk.home, chain, resolve, n)
      decreases MAX_INSTANCES - |walk.seen|
    {
      var answer := AtHome;
      match walk.Asks() {
        case Done => return Ok(Some(chain));
        case Home =>
        case Root(dir) =>
          match resolve(n, dir) {
            case Err(why) => return Err(Unresolved(why));
            case Ok(None) => return Ok(None);
            case Ok(Some(found)) => answer := found;
          }
      }
      n := n + 1;
      var next := walk.Step(answer);
      match next {
        case Err(why) => return Err(why);
        case Ok(None) => return Ok(Some(chain));
        case Ok(Some(link)) => chain := chain + [link];
      }
    }
  }

  // ---- Whatever `root` answers ------------------------------------------

  lemma OneMore(nearest: bool, seen: seq<Link>, next: Link)
    requires Walked(nearest, seen) && |seen| < MAX_INSTANCES && (nearest ==> seen == [])
    requires (seen != [] ==> seen[|seen| - 1].Some?) && (next.Some? ==> next !in seen)
    ensures Walked(nearest, seen + [next])
  {
  }

  /** For any `root` whatever a walk that succeeds has at most 64 instances, no two the
      same; a cascading one ends in the instance at `~` and has it once, and a nearest
      one has at most one instance. It fails only as `root` does, or after 64 instances
      none of which is `~`. */
  lemma {:induction false} WalkIsSound(start: Link, nearest: bool, home: Option<Directory>, seen: seq<Link>, resolve: Resolve, n: nat)
    requires Walked(nearest, seen)
    ensures var out := WalkFrom(start, nearest, home, seen, resolve, n);
      && (out.Ok? && out.value.Some? ==>
            var chain := out.value.value;
            && seen <= chain && Walked(nearest, chain)
            && (!nearest ==> EndsGlobal(chain)))
      && (out.Ok? && out.value.None? ==> exists m, dir :: resolve(m, dir) == Ok(None))
      && (out.Err? ==>
            || (out.error == DoesNotSettle && !nearest)
            || exists m, dir :: resolve(m, dir).Err? && out.error == Unresolved(resolve(m, dir).error))
    decreases MAX_INSTANCES - |seen|
  {
    match AskOf(start, nearest, home, seen)
    case Done =>
    case Home =>
      if |seen| < MAX_INSTANCES {
        OneMore(nearest, seen, None);
        WalkIsSound(start, nearest, home, seen + [None], resolve, n + 1);
      }
    case Root(dir) =>
      match resolve(n, dir) {
        case Err(why) =>
        case Ok(None) =>
        case Ok(Some(found)) =>
          if !(found.Nothing? && nearest) && |seen| < MAX_INSTANCES {
            OneMore(nearest, seen, NextOf(found, seen));
            WalkIsSound(start, nearest, home, seen + [NextOf(found, seen)], resolve, n + 1);
          }
      }
  }

  // ---- Which instances a walk comes to ----------------------------------

  /** Where a nearest Source is asked about: where the read is, or `$HOME` for a read at
      the global entry. */
  function NearestStart(start: Link, home: Option<Directory>): Link {
    if start.Some? then start else home
  }

  /** A nearest Source's walk is the one instance its `root` finds where the read is, or at
      `$HOME` for a read at the global entry, or none where it finds nothing; with no
      `$HOME` to ask about, it is the instance at `~`. */
  lemma NearestIs(start: Link, home: Option<Directory>, resolve: Resolve)
    ensures WalkFrom(start, true, home, [], resolve, 0) ==
      match NearestStart(start, home)
      case None => Ok(Some([None]))
      case Some(dir) =>
        match resolve(0, dir)
        case Err(why) => Err(Unresolved(why))
        case Ok(None) => Ok(None)
        case Ok(Some(Nothing)) => Ok(Some([]))
        case Ok(Some(AtHome)) => Ok(Some([None]))
        case Ok(Some(At(root))) => Ok(Some([Some(root)]))
  {
    assert forall next: Link :: [] + [next] == [next];
    assert forall next: Link :: AskOf(start, true, home, [next]) == Done;
  }

  /** `next` is what `root` finds for `dir`, asked for the `n`th time: the instance at `~`
      where it finds `$HOME`, nothing, or an instance already among `seen`. */
  ghost predicate Answers(resolve: Resolve, n: nat, dir: Directory, seen: seq<Link>, next: Link) {
    && resolve(n, dir).Ok? && resolve(n, dir).value.Some?
    && match resolve(n, dir).value.value
       case At(root) => next == if Some(root) in seen then None else Some(root)
       case AtHome => next == None
       case Nothing => next == None
  }

  /** The instances of a cascading walk: what `root` finds where the read is, and after each
      what it finds for the directory above it, or the instance at `~` where that is
      `$HOME` or there is none; a read at the global entry has that one alone. */
  ghost predicate IsCascade(start: Link, home: Option<Directory>, resolve: Resolve, chain: seq<Link>) {
    && (chain != [] ==> if start.None? then chain[0] == None else Answers(resolve, 0, start.value, [], chain[0]))
    && forall i: nat {:trigger chain[i + 1]} | i + 1 < |chain| ::
         chain[i].Some? &&
         if chain[i].value == [] || home == Some(chain[i].value[..|chain[i].value| - 1]) then chain[i + 1] == None
         else Answers(resolve, i + 1, chain[i].value[..|chain[i].value| - 1], chain[..i + 1], chain[i + 1])
  }

  lemma CascadeOnward(start: Link, home: Option<Directory>, resolve: Resolve, seen: seq<Link>, next: Link)
    requires IsCascade(start, home, resolve, seen)
    requires seen == [] ==> if start.None? then next == None else Answers(resolve, 0, start.value, [], next)
    requires seen != [] ==>
      var last := seen[|seen| - 1];
      last.Some? &&
      if last.value == [] || home == Some(last.value[..|last.value| - 1]) then next == None
      else Answers(resolve, |seen|, last.value[..|last.value| - 1], seen, next)
    ensures IsCascade(start, home, resolve, seen + [next])
  {
    hide Answers;
    var chain := seen + [next];
    forall i: nat | i + 1 < |chain|
      ensures chain[i].Some?
      ensures if chain[i].value == [] || home == Some(chain[i].value[..|chain[i].value| - 1]) then chain[i + 1] == None
              else Answers(resolve, i + 1, chain[i].value[..|chain[i].value| - 1], chain[..i + 1], chain[i + 1])
    {
      assert chain[..i + 1] == seen[..i + 1];
      assert seen[..|seen|] == seen;
      if i + 1 < |seen| {
        assert chain[i + 1] == seen[i + 1];
      }
    }
  }

  /** A cascading walk that comes to an end has gone through exactly those. */
  lemma {:induction false} CascadeIs(start: Link, home: Option<Directory>, seen: seq<Link>, resolve: Resolve)
    requires |seen| <= MAX_INSTANCES && IsCascade(start, home, resolve, seen)
    ensures var out := WalkFrom(start, false, home, seen, resolve, |seen|);
      out.Ok? && out.value.Some? ==> IsCascade(start, home, resolve, out.value.value)
    decreases MAX_INSTANCES - |seen|
  {
    hide IsCascade, Answers;
    match AskOf(start, false, home, seen)
    case Done =>
    case Home =>
      CascadeOnward(start, home, resolve, seen, None);
      if |seen| < MAX_INSTANCES {
        CascadeIs(start, home, seen + [None], resolve);
      }
    case Root(dir) =>
      if resolve(|seen|, dir).Ok? && resolve(|seen|, dir).value.Some? {
        var next := NextOf(resolve(|seen|, dir).value.value, seen);
        assert Answers(resolve, |seen|, dir, seen, next) by { AnswerIs(resolve, |seen|, dir, seen); }
        CascadeOnward(start, home, resolve, seen, next);
        if |seen| < MAX_INSTANCES {
          CascadeIs(start, home, seen + [next], resolve);
        }
      }
  }

  lemma AnswerIs(resolve: Resolve, n: nat, dir: Directory, seen: seq<Link>)
    requires resolve(n, dir).Ok? && resolve(n, dir).value.Some?
    ensures Answers(resolve, n, dir, seen, NextOf(resolve(n, dir).value.value, seen))
  {
  }

  // ---- When a chain is refused ------------------------------------------

  /** A `root` that settles: what it finds is the directory asked about, or one above,
      and never `$HOME`, which it tells apart. */
  ghost predicate Settles(resolve: Resolve, home: Option<Directory>) {
    forall n, dir {:trigger resolve(n, dir)} ::
      resolve(n, dir).Ok? && resolve(n, dir).value.Some? && resolve(n, dir).value.value.At? ==>
        resolve(n, dir).value.value.root <= dir && home != Some(resolve(n, dir).value.value.root)
  }

  /** `$HOME` is on the way up from `dir`. */
  predicate OnWay(dir: Directory, home: Option<Directory>) {
    home.Some? && home.value <= dir
  }

  /** The most instances a cascading walk from `dir` can come to by a `root` that
      settles, `~` among them. Each level up to `/` can have one; where `$HOME` is on the
      way it has none, and a chain that goes on past it has none just below it either,
      as it would end there. */
  function Most(dir: Directory, home: Option<Directory>): nat {
    if !OnWay(dir, home) then |dir| + 2
    else if home.value == dir || home.value == [] then |dir| + 1
    else |dir|
  }

  /** The most that can follow an instance. */
  function MostAfter(at: Directory, home: Option<Directory>): nat
    requires OnWay(at, home) ==> home.value != at
  {
    if !OnWay(at, home) then |at| + 1
    else if home.value == [] then |at|
    else |at| - 1
  }

  /** The instances so far lie on the way up, none at `$HOME`, and leave room for no
      more than the most there can be. */
  ghost predicate Climbs(seen: seq<Link>, start: Directory, home: Option<Directory>) {
    && (forall i | 0 <= i < |seen| && seen[i].Some? :: seen[i].value <= start && seen[i] != home)
    && (seen != [] && seen[|seen| - 1].Some? ==> |seen| + MostAfter(seen[|seen| - 1].value, home) <= Most(start, home))
  }

  lemma ShorterPrefix(h: Directory, at: Directory)
    requires h <= at && h != at
    ensures |h| < |at|
  {
    assert h == at[..|h|] && at == at[..|at|];
  }

  lemma BelowHome(at: Directory, home: Option<Directory>)
    requires home != Some(at)
    ensures OnWay(at, home) ==> |home.value| < |at|
    ensures MostAfter(at, home) > 0
  {
    if OnWay(at, home) {
      ShorterPrefix(home.value, at);
    }
  }

  lemma FirstClimbs(start: Directory, home: Option<Directory>, r: Directory)
    requires r <= start && home != Some(r)
    ensures 1 + MostAfter(r, home) <= Most(start, home)
  {
    if OnWay(r, home) {
      assert home.value <= start;
    }
  }

  lemma NextClimbs(at: Directory, start: Directory, home: Option<Directory>, r: Directory)
    requires at != [] && at <= start && home != Some(at)
    requires home != Some(at[..|at| - 1]) && r <= at[..|at| - 1] && home != Some(r)
    ensures r <= start && 1 + MostAfter(r, home) <= MostAfter(at, home)
  {
    if OnWay(r, home) {
      assert home.value <= at;
    } else if OnWay(at, home) {
      var h := home.value;
      assert h == at[..|h|];
      BelowHome(at, home);
      assert |h| <= |r| ==> h <= r;
    }
  }

  /** Within the bound no `root` that settles is refused. */
  lemma {:induction false} NotRefused(start: Directory, home: Option<Directory>, seen: seq<Link>, resolve: Resolve, n: nat)
    requires Settles(resolve, home) && Most(start, home) <= MAX_INSTANCES
    requires |seen| <= MAX_INSTANCES && Climbs(seen, start, home)
    ensures WalkFrom(Some(start), false, home, seen, resolve, n) != Err(DoesNotSettle)
    decreases MAX_INSTANCES - |seen|
  {
    if seen != [] && seen[|seen| - 1].Some? {
      BelowHome(seen[|seen| - 1].value, home);
    }
    match AskOf(Some(start), false, home, seen)
    case Done =>
    case Home =>
      NotRefused(start, home, seen + [None], resolve, n + 1);
    case Root(dir) =>
      match resolve(n, dir) {
        case Err(why) =>
        case Ok(None) =>
        case Ok(Some(found)) =>
          var next := NextOf(found, seen);
          if next.Some? {
            if seen == [] {
              FirstClimbs(start, home, next.value);
            } else {
              NextClimbs(seen[|seen| - 1].value, start, home, next.value);
            }
          }
          assert Climbs(seen + [next], start, home);
          NotRefused(start, home, seen + [next], resolve, n + 1);
      }
  }

  /** The `root` that gives the most: each directory is its own, but for `$HOME` and the
      directory just below it, which give the one above `$HOME`. */
  function Longest(home: Option<Directory>): Resolve {
    (n: nat, dir: Directory) => Ok(Some(GivenBy(home, dir)))
  }

  function GivenBy(home: Option<Directory>, dir: Directory): Found {
    if home.Some? && home.value != [] && home.value <= dir && |dir| <= |home.value| + 1
    then At(home.value[..|home.value| - 1])
    else if home == Some(dir) then AtHome
    else At(dir)
  }

  lemma LongestSettles(home: Option<Directory>)
    ensures Settles(Longest(home), home)
  {
    forall dir: Directory
      ensures var found := GivenBy(home, dir); found.At? ==> found.root <= dir && home != Some(found.root)
    {
    }
  }

  /** How many levels the longest walk has yet to climb from an instance. */
  lemma {:induction false} LongestIsRefused(start: Directory, home: Option<Directory>, seen: seq<Link>, n: nat)
    requires 0 < |seen| <= MAX_INSTANCES && seen[|seen| - 1].Some? && home != seen[|seen| - 1]
    requires var at := seen[|seen| - 1].value;
      && |seen| + MostAfter(at, home) > MAX_INSTANCES
      && (OnWay(at, home) && home.value != [] ==> |at| > |home.value| + 1)
      && forall i | 0 <= i < |seen| && seen[i].Some? :: |seen[i].value| >= |at|
    ensures WalkFrom(Some(start), false, home, seen, Longest(home), n) == Err(DoesNotSettle)
    decreases MAX_INSTANCES - |seen|
  {
    if |seen| < MAX_INSTANCES {
      var at := seen[|seen| - 1].value;
      assert at != [];
      var up := at[..|at| - 1];
      assert home != Some(up);
      var next := NextOf(GivenBy(home, up), seen);
      assert next.Some? && |next.value| < |at|;
      LongestIsRefused(start, home, seen + [next], n + 1);
    }
  }

  lemma LongestRefused(start: Directory, home: Option<Directory>)
    requires Most(start, home) > MAX_INSTANCES
    ensures WalkFrom(Some(start), false, home, [], Longest(home), 0) == Err(DoesNotSettle)
  {
    var next := NextOf(GivenBy(home, start), []);
    assert next.Some?;
    LongestIsRefused(start, home, [] + [next], 1);
  }

  /** Where there is no `$HOME`, the chain of a directory 63 levels down or more that is
      an instance at every level is refused, though its `root` answers each directory
      with itself. */
  lemma DeepChainRefused(start: Directory)
    requires |start| >= 63
    ensures WalkFrom(Some(start), false, None, [], (n: nat, dir: Directory) => Ok(Some(At(dir))), 0) == Err(DoesNotSettle)
  {
    SameAnswers(Some(start), None, [], (n: nat, dir: Directory) => Ok(Some(At(dir))), Longest(None), 0);
    LongestRefused(start, None);
  }

  lemma {:induction false} SameAnswers(start: Link, home: Option<Directory>, seen: seq<Link>, r: Resolve, q: Resolve, n: nat)
    requires |seen| <= MAX_INSTANCES && forall m, dir :: r(m, dir) == q(m, dir)
    ensures WalkFrom(start, false, home, seen, r, n) == WalkFrom(start, false, home, seen, q, n)
    decreases MAX_INSTANCES - |seen|
  {
    if |seen| < MAX_INSTANCES {
      match AskOf(start, false, home, seen)
      case Done =>
      case Home => SameAnswers(start, home, seen + [None], r, q, n + 1);
      case Root(dir) =>
        if r(n, dir).Ok? && r(n, dir).value.Some? {
          SameAnswers(start, home, seen + [NextOf(r(n, dir).value.value, seen)], r, q, n + 1);
        }
    }
  }

  /** No cascading walk by a `root` that settles is refused if and only if it starts
      where there can be at most 64 instances: at the global entry, no more than 62
      levels down with `$HOME` nowhere above, 63 levels with `$HOME` at `/` or where it
      starts, and 64 with `$HOME` in between. */
  lemma RefusedExactly(start: Link, home: Option<Directory>)
    ensures (forall resolve: Resolve | Settles(resolve, home) ::
               WalkFrom(start, false, home, [], resolve, 0) != Err(DoesNotSettle))
      <==> start.None? || Most(start.value, home) <= MAX_INSTANCES
  {
    if start.Some? && Most(start.value, home) > MAX_INSTANCES {
      LongestSettles(home);
      LongestRefused(start.value, home);
    } else {
      forall resolve: Resolve | Settles(resolve, home)
        ensures WalkFrom(start, false, home, [], resolve, 0) != Err(DoesNotSettle)
      {
        if start.Some? {
          NotRefused(start.value, home, [], resolve, 0);
        }
      }
    }
  }
}
