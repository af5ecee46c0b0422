# Beachcomber's daemon state, modelled and proved in Dafny

Beachcomber is a daemon that keeps shell facts (a repository's branch, a battery's
charge, whatever was `put`) ready to be read. This project models the parts of it
whose correctness rests on state shared between threads, or on one structure being
read back through another, and proves what those parts promise over every run and
every input. `dafny verify dfyconfig.toml` checks all of it.

| part | source | files |
|---|---|---|
| run coordinator | `src/run.rs` | `RunTable`, `RunInvariant`, `RunTheorems`, `RunEnds`, `RunEffects`, `RunsTable`, `WaitGraph` |
| addresses and keys as text | `libbeachcomber/src/key.rs` | `Keys`, `Grammar` |
| value trees and puts | `src/cache.rs`, `src/provider/mod.rs` | `Tree`, `TreeCuts`, `Puts`, `PutMap` |
| persisted puts | `src/persist.rs`, `src/daemon/mod.rs` | `PersistLog`, `ReplayReads` |
| merged reads and their provenance | `src/cache.rs`, `src/shape/provider.rs` | `Merge`, `MergeRead`, `PutNotes`, `ChainRead`, `ReadMerged`, `ChainRule` |
| memos and their invalidation | `src/cache.rs` | `Memos`, `MemoStore`, `MemoSteps` |
| tree stamps and record validity | `src/cache.rs` | `TreeStamps`, `Validity` |
| watch registrar | `src/watcher.rs` | `Holds`, `Registrar`, `WatchThread` |
| instance walk and read chain | `src/query.rs` | `Walk` |
| subscription registry | `src/watcher_registry.rs` | `Channels` |

`Prelude` holds what all of them use.

## How it is modelled

Where the source changes state in place there is a `class` whose methods do that
(`Runs`, `PutMap`, `PutStore`, `MemoStore`, `TreeMap`, `Worker`, `Watches`,
`InstanceWalk`, `WatcherRegistry`), or a method with the source's own loop. Each such
method is proved against a specification function or step, and the promises are
proved of those. Loops over hash maps take their keys in any order.

Threads that share a lock are transition systems. One step is what happens under one
holding of the lock; what the source does before taking it or after letting it go is
another step, with any other step between. In the run coordinator the ends a thread
has decided and not yet written are part of the state, and the threads of runs that
were replaced, or cut off at their timeout, go on asking. In the registrar the client
writes its table and sends its command in two steps, and the worker registers and
settles in two. In the subscription registry a notification and a drop are two steps
each, and a sweep may fall anywhere, one key at a time. A memo is written and evicted
in as many steps as entries are held, under the index; an invalidation copies the index
and then visits directory after directory, and a Source's result looks at the index,
is stored and is followed in separate steps (`MemoSteps`). `MemoStore` has what each of
these does to the trees, taken whole.

An address is a sequence of segments: its canonical text reads back as it
(`Keys.ReadsBack`), and comparing texts as `within` does is comparing prefixes
(`Keys.WithinIs`). Texts appear only where the code takes one that need not be
canonical (`PutNotes`). A value is a scalar or an object. A tree is its
leaves: what each operation does is stated leaf by leaf, and
`Tree.TreeIsItsLeaves` turns that into equality of trees.

What is left open: which result a run gives and whether its task is dropped, whether
an instance is in failback backoff, whether its Source is registered and a record
stored, whether a run's inputs are as it stamped them, what the file system and the
kernel watcher answer, what a Source's `root` answers, every clock reading and every
stamp. Each is a parameter of its step or method.

## What was found

In these places the code does not do all that its comments say or a caller would expect.
The model follows the code. For each, a lemma gives an input that shows it, and another
says exactly when it does not happen.

* `src/run.rs:248-249` says that a run replaced in flight has told its waiters where
  to go before its own task comes back. The lock is let go before that end is written
  (`src/run.rs:436-437`), so the replaced run's task can settle in between and its
  `Dropped` then stands, though a run is in flight for the caller
  (`RunTheorems.ReplacedCallerMayBeDropped`). Its callers are sure to be forwarded if
  and only if the end that forwards them has been written (`RunEnds.ForwardedExactly`).
* `is_at_or_below` (`src/cache.rs:892-898`) does not see an address that goes on with a
  bracket, where `key::within` does. Evicting a put then takes a deeper put with it
  when the next segment is one that needs quotes (`Puts.EvictTakesAnothers`). An
  eviction takes its own leaves and no other's if and only if every address stamped
  below goes on with a dot (`Puts.EvictTakesItsOwn`).
* `merge_puts` notes the records of the put map from each top-level key as it is
  (`src/cache.rs:1963-1965`), where `merge_layer` quotes it. The code keeps records by
  text, so what a note meets depends on what the key's text is. The canonical text of an
  address is noted as that address; a text that reads as an address without being
  canonical gets a record of its own, if a stamp governs the address above; and one that
  reads as none is never noted (`PutNotes.PutAddressIs`). So a layer's own read may hold a
  record that is no leaf's (`PutNotes.DottedKeyStrays`, `PutNotes.BracketKeyStrays`), and
  holds none if and only if every text named, and governed, is that of a put leaf
  (`ChainRead.PutsKeep`). These records go no further: a layer with put addresses is read
  by itself and only its leaves' records are copied, so the whole read is exact whatever
  the keys (`ReadMerged.ReadChain`). What a reader does see is the ttl. A put leaf carries
  the freshness of its stamp if and only if some key's text names it, and else the put
  map's own, without a ttl (`ChainRead.PutLeafRecord`). Where no top-level key is empty or
  starts with a bracket, that is if and only if the leaf's first segment needs no quotes
  (`ChainRead.TtlIsReadExactly`).
* Replaying the compacted log of persisted puts rebuilds the same tree with every leaf
  under the same put (`PersistLog.ReplayRebuilds`), but not always the same stamps. It
  may keep one that the history dropped (`PersistLog.ReplayMayKeepAStamp`) or drop one
  that it kept (`PersistLog.ReplayMayLoseAStamp`). Stamps hide what lies below them, so
  a restart can show a leaf of a seed or a Source that was hidden before
  (`ReplayReads.ReplayShowsWhatWasHidden`), or hide one that was shown
  (`ReplayReads.ReplayHidesWhatWasShown`). The reads are
  the same over every tree below if and only if each address either side keeps stamped
  has one that the other keeps at or above it (`ReplayReads.ReplayReadsExactly`); an
  address is kept stamped exactly while no put comes at it or above, and at each put
  below it something else still stands there and is no scalar in the way
  (`ReplayReads.StampedIsKept`).
* Each replay puts off the end of a put with a ttl by less than a second
  (`PersistLog.RenewedPutsOff`), and by nothing if and only if a whole number of
  seconds was left (`PersistLog.RenewedEnds`).
* An upgrade of a kernel registration that fails is put back with a call whose answer
  is not looked at (`src/watcher.rs:557-561`). If that fails too, the worker keeps an
  entry the watcher does not have, and tells the next path that rests on it that it is
  watched (`Registrar.LostIsToldActive`). Over every run, a path told it is active is
  watched if and only if no step has lost its registration, or a later one has restored
  it (`Registrar.ActiveIsWatched`, `Registrar.MissingIsLost`).
* A Source's new result invalidates the memos of the fields it has. A field that the
  result no longer has leaves its memo its hash (`MemoStore.VanishedFieldKeepsHash`).
  All memos of the old fields and the new are invalidated if and only if no memo of a
  field that is gone had a hash (`MemoStore.SourceFollowedExactly`).
* `put_source` looks whether the provider has a memo anywhere before it stores the result
  (`src/cache.rs:1456`), and follows it only then. The provider's first memo, written in
  between, keeps its hash though a result of its field has been stored since
  (`MemoSteps.FirstMemoIsMissed`). On every way on from the look, no memo of the result's
  fields is left with a hash from before, if and only if the look found a directory
  (`MemoSteps.FollowedExactly`).
* A chain with an instance at every level of a deep directory is refused as a root that
  does not settle (`Walk.DeepChainRefused`). No root that settles is refused if and only
  if the walk starts no more than 62 levels down with `$HOME` nowhere above, 63 with
  `$HOME` at `/` or where it starts, and 64 with `$HOME` in between
  (`Walk.RefusedExactly`).

## Model

| member | source | states |
|---|---|---|
| WaitGraph.SinkFrom | src/run.rs:117-129 | following one edge at a time in a graph without rings ends, within as many hops as there are edges, at a node with none |
| WaitGraph.AddEdge | src/run.rs:130 | a wait on a run that does not wait, however far round, on the asker closes no ring |
| WaitGraph.Redraw | src/run.rs:434-436 | waits that go, and waits redrawn to runs that wait on nothing, close no ring |
| RunInvariant.StepKeeps | src/run.rs:403-711 | every step keeps the invariant of slots, States, waits, decided ends and stores, the absence of rings among it |
| RunInvariant.SoundAlways | src/run.rs:664-671 | the States the slots name exist, and a run overtaken with Again always has a run queued, so the `expect` that it has cannot fail |
| RunInvariant.LeadsKeeps | src/run.rs:403-711 | the invariant holds after any sequence of possible steps |
| RunTheorems.NoRingOfWaits | src/run.rs:105-132 | in every reachable state no set of runs waits on itself, across promotion, replacement, overtaking and threads left behind |
| RunTheorems.EveryWaitComesToAnEnd | src/run.rs:375-391 | from any waiting run, within as many hops as there are waits, the waits come to a run that can go on |
| RunTheorems.QuietHasDrained | src/run.rs:628-711 | a daemon with nothing left to do has no wait and no slot, and every State ever handed out has ended |
| RunTheorems.InternalStepsRunOut | src/run.rs:628-711 | every step but a new ask or a reload leaves strictly less to do |
| RunEnds.BusyCanStep | src/run.rs:628-711 | a coordinator that has not come to rest has such a step to take |
| RunEnds.ComesToRest | src/run.rs:628-711 | from every reachable state such steps lead to rest |
| RunEnds.EveryRunEnds | src/run.rs:628-711 | however it goes on by such steps, it takes no more of them than it has work, and where it can take none no slot or wait is left and every run ever asked for has ended |
| RunTheorems.LastOf | src/run.rs:337-347 | following moved States comes to a State made no earlier, over finitely many hops |
| RunTheorems.NoCallerIsLost | src/run.rs:337-391 | every State ever handed out forwards, over later runs of the same instance, to one that has ended for good or is in flight, queued, or held by the thread about to end it |
| RunTheorems.OutcomeStands | src/run.rs:248-254 | what a caller is once told it is told for ever, along the whole chain: the first end written stands |
| RunTheorems.StoresInOrder | src/run.rs:636-675 | per instance, the runs that stored were made in the order they stored, and no overtaken or replaced run stored |
| RunTheorems.ToldStoredIsStored | src/run.rs:675 | a run whose end says Stored did store |
| RunTheorems.HandedUnbegun | src/run.rs:444-447 | a caller wanting a run that begins after now is handed one not begun, and no later one of the instance has begun either |
| RunTheorems.StoredIsFresh | src/run.rs:444-447 | a Fresh or Forced caller told Stored was told by a run that began and stored after it asked, even when that run was replaced or overtaken |
| RunTheorems.AskedRunIsOwed | src/run.rs:650-662 | a caller's queued run is never dropped by a Gone overtake of a registry no newer than the caller's, and a forced one is not held back by the backoff |
| RunTheorems.ReplacedRunForwards | src/run.rs:419-447 | the end of a replaced run forwards its callers, unless its own task has settled, and then it may drop them |
| RunEnds.ReachableTwoEnds | src/run.rs:434-447 | of a replaced run with no end yet the end that forwards is always decided, and the one that drops exactly when its task has settled |
| RunEnds.MayStillBeDropped | src/run.rs:436-437 | until the forwarding end is written there is a way on which its callers are told Dropped |
| RunEnds.ForwardedExactly | src/run.rs:434-447 | whatever comes, a replaced run's callers are forwarded if and only if the end that forwards them has been written |
| RunTheorems.ReplacedCallerMayBeDropped | src/run.rs:436-437 | a run of five steps after which a replaced run's callers are told Dropped while its replacement is in flight |
| RunEffects.InFlightSettles | src/run.rs:640-671 | of a run in flight that settles exactly one end is decided: its own outcome, Dropped if it has none or its Source is gone, or where it goes if it was overtaken and is to run again; it is stored if and only if it was not overtaken and its outcome is Stored |
| RunEffects.CallersAreTold | src/run.rs:671-696 | whatever comes after, its callers are told that or nothing yet, and it is among the stored runs just in that case |
| RunEffects.QueuedIsNext | src/run.rs:672-693 | the run queued behind it is in flight then, exactly if the task was not dropped, the daemon and its Source are there, nothing holds it back unforced, and no later reload did away with its Source; else it is let go and its callers are told Dropped |
| RunEffects.NoneIsNext | src/run.rs:689-693 | with none queued the instance is free |
| RunEffects.ReplacedSettles | src/run.rs:638-646 | a replaced run that settles stores nothing and changes no slot, and Dropped is decided for it |
| RunEffects.OthersAreNotTold | src/run.rs:628-711 | a settling decides nothing for any other run, and changes no other State and no wait |
| RunEffects.OvertakenRun | src/run.rs:508-529 | a reload leaves the run in flight in flight, marked; Again has a run behind it, made or found, unforced by it and under the newer registry; Gone makes none; nothing else changes |
| RunEffects.OvertakenIsTold | src/run.rs:649-670 | whatever comes before it settles and after, whatever its result, a run overtaken stores nothing, and its callers are told Dropped after Gone and go to the run the reload put behind it after Again |
| RunEffects.WhatIsHanded | src/run.rs:403-481 | exactly when a caller is refused, and that nothing changes then; and else which run it is handed: one made now, the one in flight, the one that takes its place, or the one behind it; and what becomes of every other |
| RunEffects.WhoWaits | src/run.rs:105-132 | a task waits on nothing; a run's thread waits on what it is handed, unless that would close a ring; no other wait changes |
| RunsTable.SinkPathPasses | src/run.rs:118-129 | a walk that ends at a run that waits on nothing has passed every run its start reaches |
| RunsTable.Runs.constructor | src/run.rs:90-103 | an empty table is the initial state |
| RunsTable.Runs.Ask | src/run.rs:109-132 | the bounded walk, in as many turns as there are waits and one, answers Ring if and only if the asker is reached from the run in flight of the key asked for |
| RunsTable.Runs.Queue | src/run.rs:717-735 | the one queued run is made or found, forced if any asker forced it, under the newest registry that asked |
| RunsTable.Runs.Start | src/run.rs:403-481 | what each Want is handed and how the table changes, as the step says, the invariant kept |
| RunsTable.Runs.Replace | src/run.rs:430-436 | the queued run takes the place of the one in flight, whose waiters are to be told where to go |
| RunsTable.Runs.NewSlot | src/run.rs:464-472 | a slot for an instance with none, its run yet to begin |
| RunsTable.Runs.Supersede | src/run.rs:508-529 | a reload's overtake, as the step says, the invariant kept |
| RunsTable.Runs.Settle | src/run.rs:628-711 | a task's settling, with its decided ends, as the step says, the invariant kept; what that means for callers is `RunEffects` |
| RunsTable.Runs.Finish | src/run.rs:250-254 | an end is written only where there is none |
| RunsTable.Runs.OutcomeNow | src/run.rs:361-370 | the loop over moved States ends, with the outcome of the last State if and only if it has ended |
| Keys.ReadSegments | libbeachcomber/src/key.rs:82-164 | the loops over a text give the segments that the grammar, read one segment after another, gives it, and nothing for a text that is no address |
| Grammar.ParsedIsSpelled | libbeachcomber/src/key.rs:4-18 | a text is read as an address if and only if it spells it, each segment after a dot, as an index or in quotes of either kind with the quote and the backslash escaped; all else is refused |
| Grammar.IndexIs | libbeachcomber/src/key.rs:165-177 | a segment is a canonical index if and only if it is the decimal text of an integer of 64 bits |
| Grammar.KeyIsSpelled | libbeachcomber/src/key.rs:40-56 | a key is read as a head and an address if and only if it is a head, no directory and without dot or bracket, and then spells that address |
| Keys.ReadsBack | libbeachcomber/src/key.rs:69-80 | the canonical text of any segments whatever is read, and split, as exactly those segments |
| Keys.TextTellsApart | libbeachcomber/src/key.rs:224-240 | two addresses have one text only if they are one |
| Keys.ParentIs | libbeachcomber/src/key.rs:255-261 | the parent of an address's text is the text of the address above, and the root has none |
| Keys.WithinIs | libbeachcomber/src/key.rs:268-276 | one text lies within another exactly if its address is at or below the other's |
| Keys.KeyReadsBack | libbeachcomber/src/key.rs:242-253 | a head and an address printed as a key are typed back as that head and that address |
| Keys.PrintedKeyIsTheKey | libbeachcomber/src/key.rs:28-29 | a key typed any way the grammar allows is, once printed, typed back as the same key |
| Tree.LeafInsert | src/provider/mod.rs:177-215 | an insertion puts the value's leaves at its address in place of every leaf overlapping it, and leaves the rest |
| Tree.LeafRemove | src/provider/mod.rs:294-353 | a removal, with the containers it empties, takes exactly the leaves at the address and below |
| Tree.TreeIsItsLeaves | src/cache.rs:871-886 | two trees with the same leaves are the same tree |
| Tree.LeavesApart | src/cache.rs:871-886 | no leaf lies below another |
| Puts.AtOrBelowIs | src/cache.rs:890-898 | on the texts, as the code compares them, it is: the root, the same address, or one that goes on with a segment that needs no quotes |
| Puts.Nearest | src/cache.rs:825-833 | the walk up the parents finds the deepest stamped address at or above a record, if there is one |
| Puts.DropKeepsNearest | src/cache.rs:906-932 | dropping a subtree leaves every other leaf under the stamp it had |
| Puts.WriteStates | src/cache.rs:998-1082 | a put states the value at its address: its leaves are there, no other leaf overlaps the address, every other leaf is as it was |
| Puts.WriteNearest | src/cache.rs:1053-1077 | a put's leaves are governed by its own stamp, every other leaf by the stamp it had, scalars in the way unstamped |
| Puts.EvictNearest | src/cache.rs:938-976 | a leaf an eviction leaves was there before, under the same stamp |
| Puts.AlwaysStamped | src/cache.rs:825-833 | over every run of puts, removals and evictions every stamped address holds something and every leaf has a stamp at or above it |
| Puts.StampAfter | src/cache.rs:1058-1074 | a put's address has the put's time and ttl, and every address an operation leaves stamped has those it had |
| Puts.StampIsLastPuts | src/cache.rs:1067-1073 | over every run the time and ttl of a stamped address are those of the last put at it |
| Puts.LeafIsItsPuts | src/cache.rs:825-833 | over every run each leaf is the one its last put stated, and is governed by that put's own time and ttl |
| Puts.EvictTakesItsOwn | src/cache.rs:934-976 | evicting a stamped address takes exactly the leaves whose nearest stamp it is, if and only if every address stamped below it goes on with a dot |
| Puts.EvictTakesAnothers | src/cache.rs:892-898 | two puts of which evicting the upper takes the lower's leaf too |
| PutMap.WalkLeaves | src/cache.rs:878-888 | every record the value writes at the node is listed, and nothing else |
| PutMap.LeafInsertAll | src/cache.rs:1075-1077 | records of one value landed one by one are at their addresses, and nothing that overlaps them but they |
| PutMap.PutMap.Drop | src/cache.rs:906-932 | the subtree goes with every stamp at or below it and every stamp left holding nothing, and it answers whether anything was there |
| PutMap.PutMap.Put | src/cache.rs:998-1082 | dropping, unstamping what is in the way, stamping and landing leaf by leaf amount to stating the value at the node, with its own stamp there and every other as it was |
| PutMap.PutMap.Unseat | src/cache.rs:1058-1066 | the walk up the parents takes the stamps of exactly the scalars above the node |
| PutMap.PutMap.Evict | src/cache.rs:938-976 | a subtree goes but for what the stamped addresses below hold, which comes back with their stamps, in whatever order |
| PersistLog.OutsideTakes | src/persist.rs:98-102 | the entries kept are those neither at the address nor below it, in order |
| PersistLog.ExpiredTakes | src/persist.rs:110-118 | an expiry takes the entry of exactly the address in the directory, and leaves the others in order |
| PersistLog.CompactedKeeps | src/persist.rs:98-107 | the store is left with exactly the entries at or above whose address no later put came, in order, none at or below a later one |
| PersistLog.TidyIsRebuilt | src/persist.rs:66-70 | recording the entries of such a list in order rebuilds exactly that list |
| PersistLog.WriteAt | src/cache.rs:998-1082 | what a put leaves at every address: the leaf and the put that governs it |
| PersistLog.ReplayRebuilds | src/persist.rs:66-107 | for every sequence of persisted puts and every place, replaying what the store keeps rebuilds the same put tree, each leaf governed by the same put |
| PersistLog.ReplayMayKeepAStamp | src/cache.rs:920-930 | a history whose replay keeps a stamp the history had dropped |
| PersistLog.ReplayMayLoseAStamp | src/cache.rs:920-930 | a history whose replay drops a stamp the history had kept |
| ReplayReads.ReadsAgreeExactly | src/cache.rs:1935-1967 | two layers of the same puts read the same over every tree below if and only if each address stamped in either has a stamp of the other at or above it |
| ReplayReads.WriteStampAt | src/cache.rs:998-1074 | a put leaves the stamp of another address exactly if it is not at or above it and, if below, something else still stands there that is no scalar in the way |
| ReplayReads.StampedIsKept | src/cache.rs:998-1074 | in terms of the puts alone, exactly when an address is stamped |
| ReplayReads.StampIsStated | src/cache.rs:1067-1073 | and that its time and ttl are those of the last put of the place at it |
| ReplayReads.LeafIsStated | src/cache.rs:998-1082 | in terms of the puts alone, exactly which leaf stands at an address: that of the last put overlapping it |
| ReplayReads.ReplayReadsExactly | src/persist.rs:66-107 | a history and its replay read the same over every tree below if and only if each address either keeps stamped has one the other keeps at or above it |
| ReplayReads.ReplayShowsWhatWasHidden | src/persist.rs:66-107 | a history, a tree below and an address where the replay shows a leaf the history hid |
| ReplayReads.ReplayHidesWhatWasShown | src/persist.rs:66-107 | and one where it hides a leaf the history showed |
| PersistLog.RenewedEnds | src/persist.rs:35-43 | a replayed put ends no earlier than it was to, less than a second later over the time the replay took, on time if and only if a whole number of seconds was left, and never gains or loses a ttl |
| PersistLog.RenewedPutsOff | src/persist.rs:35-43 | a put with a millisecond left has a second left after a replay |
| PersistLog.ReplayedTakes | src/daemon/mod.rs:33-57 | a replay puts again every entry that has no end or whose end is still to come and that the daemon takes, and no other |
| PersistLog.RecordedIsTidy | src/persist.rs:98-107 | recording a persisted put, an unpersisted one or a removal keeps the list free of entries at or below later ones |
| PersistLog.ExpiredIsTidy | src/persist.rs:110-118 | an expiry keeps it so too |
| PersistLog.PutStore.Record | src/persist.rs:98-107 | the list after a put, and the file rewritten exactly when it changed or an entry was kept |
| PersistLog.PutStore.Expire | src/persist.rs:110-118 | the entry of exactly the address goes, and the file is rewritten if it was there |
| PersistLog.PutStore.Replay | src/daemon/mod.rs:23-57 | after a restart the store and its file hold the live entries the daemon takes, every one and in order, with their expiry renewed |
| Merge.MergedLeaf | src/cache.rs:1127-1148 | the leaf of a merge: the overlay's where it lands, else the lower layer's where no overlay leaf shadows it; an empty object does not land on an object |
| Merge.HiddenHead | src/cache.rs:1129-1147 | what the recursion over segments finds hidden is what the flat rule says: an overlay leaf lies below, or an overlay scalar above |
| Merge.AfterIs | src/cache.rs:1130-1146 | the record left at an address is the overlay's if its leaf landed, else the old one if the old leaf stands |
| Merge.MergeKeeps | src/cache.rs:1120-1178 | a merge keeps the record addresses exactly the leaf addresses, and every record the one that the map it names has for that very leaf, time and ttl included |
| Merge.PutsOverLeaf | src/cache.rs:1935-1967 | puts over lower maps: the put leaves, and the lower leaves whose address overlaps no put address |
| MergeRead.NoteRecords | src/cache.rs:1181-1218 | every leaf of a value gets its record, and no other record moves |
| MergeRead.MergeInto | src/cache.rs:1120-1178 | the recursive in-place merge gives the merged tree and the records it should, in any order of keys |
| MergeRead.MergeOver | src/cache.rs:1120-1178 | the same for the whole read |
| PutNotes.PutAddressIs | src/cache.rs:825-833 | what governs any text: of a canonical one the nearest stamp of its address, of one that only reads as an address that of the address above, of one that reads as none nothing |
| PutNotes.NotePutRecords | src/cache.rs:1222-1259 | the text of every leaf of the value, pushed from the text it starts at, gets the record of the stamp that governs the text, and no other text's record moves |
| PutNotes.NoteKeys | src/cache.rs:1963-1965 | so at the top, each key starting from its own text; without stamps nothing is noted |
| PutNotes.PlainKeysLand | src/cache.rs:1963-1965 | where no top-level key needs quotes the texts noted are exactly those of the leaves |
| PutNotes.NotedExactly | src/cache.rs:1963-1965 | where no top-level key is empty or starts with a bracket, a leaf is noted under its own text if and only if its first segment needs no quotes |
| PutNotes.DottedKeyStrays | src/cache.rs:1963-1965 | a put of one member with a dot in its name: a record at an address without a leaf, and the leaf not noted |
| PutNotes.BracketKeyStrays | src/cache.rs:1963-1965 | a put whose keys all read as leaves, one of them in brackets: a record under a text that is no leaf's |
| PutNotes.UnreadKeyIsNotNoted | src/cache.rs:825-833 | a put whose key reads as no address: nothing is noted, the leaf included |
| PutNotes.LooseKeyNotesNoLeaf | src/cache.rs:1963-1965 | a put one of whose keys reads as the address of another's leaf, and does not note it |
| ChainRead.PutsKeep | src/cache.rs:1935-1967 | stacking puts keeps records honest and every leaf recorded; the texts of the records are those of the leaves if and only if every text the keys name, and a stamp governs, is that of a put leaf |
| ChainRead.PutLeafRecord | src/cache.rs:1224-1259 | a put leaf's record carries its nearest stamp's freshness if some top-level key's text names the leaf, else the put map's own |
| ChainRead.PutReadsItsOwn | src/cache.rs:1224-1259 | over every run of put operations, a leaf that a key's text names has in the read the time and ttl of the put that stated it |
| ChainRead.TtlIsReadExactly | src/cache.rs:1948-1965 | where no top-level key is empty or starts with a bracket, a leaf put with a ttl reads with it if and only if its first segment needs no quotes |
| TreeCuts.CutTreeIs | src/cache.rs:1939-1946 | cutting the tree at every put address, in any order, takes exactly the leaves at or below one |
| ChainRead.MemoKeeps | src/cache.rs:1898-1928 | a memo laid over a read keeps the record addresses exactly the leaf addresses, and every record honest |
| ReadMerged.LayMemo | src/cache.rs:1905-1925 | what stood at the memo's address, below it or in its way above it goes with its record, and the memo's leaves have the memo's |
| ReadMerged.LayMemos | src/cache.rs:1898-1928 | every memo with a value is laid in order, one of absence lays nothing |
| ReadMerged.Lay | src/cache.rs:1874-1889 | the maps that hold anything are merged in order, provenance kept |
| ReadMerged.MergeLines | src/shape/provider.rs:665-730 | a provider's Sources in declaration order, or its rendered result, over what was merged, provenance kept |
| ReadMerged.MergePuts | src/cache.rs:1935-1967 | every put address cuts, the put map lands, and the stamps' freshness is noted under the texts of the keys |
| ReadMerged.MergeStatic | src/cache.rs:1874-1892 | seeds in composition order, then memos, then puts, and whether anything merged; every leaf is recorded, honestly, and only stamped puts leave other records |
| ReadMerged.JoinEntry | src/cache.rs:2132-2176 | an entry with put addresses is read on its own and then merged, any other straight in; the record addresses stay exactly the leaf addresses, and honest |
| ReadMerged.ReadChain | src/cache.rs:2087-2180 | the whole chain, farthest first: a miss if and only if no entry has a part to lay; the tree, of those parts piled; and, whatever the puts and their keys, the record addresses exactly the leaf addresses, each record the one that the map it names has for that very leaf |
| ChainRule.ChainLeaf | src/cache.rs:2087-2180 | at each address the read gives the leaf of the nearest thing laid down that has one there and that no nearer one bars, an empty object yielding to an object below it |
| ChainRule.SomeOrNone | src/cache.rs:2087-2180 | at each address some overlay is the nearest that decides, or none decides |
| ChainRule.LowerLaid | src/cache.rs:2132-2157 | what lies below the puts of any entry, stamped or not, is its provider's maps, then its seeds, then its memos, piled |
| ChainRule.HitHasParts | src/cache.rs:2130-2172 | an entry is a hit exactly if it has a map of a Source, a seed that holds anything, a memo with a value or a put map to lay |
| ChainRule.OneEntryRead | src/cache.rs:2132-2176 | one directory's read is the flat rule: put leaves, and the leaves of the lower parts piled whose address overlaps no put address |
| ChainRule.ReadAfterPuts | src/cache.rs:2132-2176 | the flat rule after any run of puts, removals and evictions |
| ChainRule.SeedIsRead | src/cache.rs:1874-1892 | a seed's leaf that no later seed, memo or put comes near is in the read, over whatever is below, and whatever puts there are elsewhere |
| ChainRule.SourceIsRead | src/shape/provider.rs:665-681 | so is the leaf of a Source's map that no Source declared later and nothing static comes near |
| ChainRule.MemoIsRead | src/cache.rs:1898-1928 | so is the leaf of a memo that no later memo and no put comes near |
| ChainRule.NearerWins | src/cache.rs:2081-2088 | the nearest directory's own answer at an address is the chain's, whatever the farther ones hold |
| Memos.WrittenIs | src/cache.rs:2354-2409 | a memo written stands with its value, or its absence, and its keys; overlapping memos go; every other is untouched |
| Memos.WriteKeeps | src/cache.rs:2347-2353 | memo addresses at one directory never overlap, and nothing stands anywhere else |
| Memos.EvictedIs | src/cache.rs:2417-2441 | an eviction takes the memo at its own address and no other |
| Memos.UnhashedIs | src/cache.rs:2563-2581 | taking a hash leaves the rest of the memo and every other memo whole |
| Memos.CutElsewhere | src/cache.rs:2446-2496 | dropping memos moves nothing at an address that overlaps none of them |
| MemoStore.MemoStore.DropMemos | src/cache.rs:2446-2496 | stamps, values and keys of the dropped memos go; an entry left empty goes; other directories stand |
| MemoStore.MemoStore.WriteMemo | src/cache.rs:2354-2409 | the directory is listed, what overlaps is dropped and the memo stored; the index stays exact |
| MemoStore.MemoStore.EvictMemo | src/cache.rs:2417-2441 | whether there was a memo; a directory without one is unlisted, and none other |
| MemoStore.MemoStore.DropHash | src/cache.rs:2563-2581 | the hash goes in place, and it answers whether one did |
| MemoStore.MemoStore.DropHashesUnder | src/cache.rs:2586-2615 | through the index, the memos overlapping a node lose their hash at every directory; whether there is any |
| MemoStore.MemoStore.MemoRecord | src/cache.rs:2507-2557 | up the chain the nearest directory holding a memo at the address decides, with or without a value; none if and only if no directory holds one |
| MemoStore.MemoStore.FollowWrite | src/cache.rs:2620-2627 | a write to the provider's data or template invalidates; a write to another facet moves nothing |
| MemoStore.InvalidatedLeaves | src/cache.rs:1514-1565 | after a write at a node no memo overlapping it has a hash at any directory, every other has its hash if it had one, and the rest of every memo stands |
| MemoStore.MemoStore.FollowSource | src/cache.rs:1456-1479 | after a new result a memo has a hash if and only if it had one and its first segment is none of the result's fields |
| MemoStore.VanishedFieldKeepsHash | src/cache.rs:1456-1479 | a result without a field leaves the memo made of that field its hash |
| MemoStore.SourceFollowedExactly | src/cache.rs:1456-1479 | all memos of the old fields and the new are without a hash if and only if none of a field that is gone had one |
| MemoStore.SoundAfter | src/cache.rs:1270-1274 | an operation at one directory that leaves it sound, and lists it exactly if it holds a memo, keeps every directory sound and the index exactly the directories holding one |
| MemoSteps.LosesHashIs | src/cache.rs:2563-2576 | on any tree of keys, taking the hash at an address takes that of the memo there, the keys of memos whose address goes through the name `hash` below it, and no other hash |
| MemoSteps.StepKeeps | src/cache.rs:2354-2615 | every step of writes, evictions, invalidations and results keeps the invariant of index, stamps, hashes and walks |
| MemoSteps.AlwaysListed | src/cache.rs:2367-2370 | at every moment of every interleaving a memo's directory is listed and memos at one directory never overlap; with nothing being written or evicted the listed directories are exactly those with a memo |
| MemoSteps.NoOldHashIsLeft | src/cache.rs:2582-2615 | whatever is written and evicted meanwhile, once an invalidation has finished no memo overlapping its node has a hash stored before it began |
| MemoSteps.ListedIsFollowed | src/cache.rs:1456-1479 | a result that found a directory listed, once followed, leaves no memo of its fields a hash from before it was stored |
| MemoSteps.FollowedExactly | src/cache.rs:1456-1479 | that holds on every way on from the look, however memos come and go, if and only if the look found a directory |
| MemoSteps.FirstMemoIsMissed | src/cache.rs:1456-1479 | a run in which the provider's first memo, written between the look and the storing, keeps its hash |
| TreeStamps.StampIsExact | src/cache.rs:139-158 | without a forget, a stamp stands if and only if the tree was watched when it was taken and has not changed, been unwatched or watched again since |
| TreeStamps.ForgetFreezes | src/cache.rs:1331-1334 | over every history, a stamp that stood when its instance was forgotten stands ever after |
| TreeStamps.TreeMap.Watched | src/cache.rs:1316-1321 | new events begin and the old are gone |
| TreeStamps.TreeMap.Unwatched | src/cache.rs:1325-1329 | the events are gone |
| TreeStamps.TreeMap.Forgotten | src/cache.rs:1332-1334 | the instance holds no events |
| TreeStamps.TreeMap.Changed | src/cache.rs:1337-1343 | one change more |
| TreeStamps.TreeMap.Stamp | src/cache.rs:1345-1375 | none without a scheduler; else the events as they stand, a tree not watched yet having a stamp that has already moved |
| Validity.AndRead | src/cache.rs:261-272 | what the lines read is added, an input in both, by path and regard, keeping its earlier stamp |
| Validity.Of | src/cache.rs:282-337 | remote if any input is on an untrusted mount; racy if and only if some stamp was taken within its mount's resolution or 10 ms of the modification time, and until the first moment that is past both for every such stamp |
| Validity.CheckAt | src/cache.rs:355-380 | Valid exactly when the tree has not moved, every input is stamped as it was on a trusted mount, and no racy window has passed |
| Validity.ValidIsUnwritten | src/cache.rs:184-194 | with a file system that rounds modification times down to its resolution, or trails by less than 10 ms: an input found as it was, late enough for every stamp, has not been written since its own |
| Validity.CheckStamped | src/cache.rs:282-380 | along the code's own path: what `of` makes of any stamps, once checked Valid when every modification time is past by the resolution and by 10 ms, was made of files not written since, for any number of inputs, resolutions and times |
| Validity.StampTells | src/cache.rs:196-198 | a write after a stamp that was not taken too soon leaves another modification time |
| Validity.CoarseStaysRacy | src/cache.rs:312-324 | however coarse the mount, a stamp within its resolution keeps the whole racy until that has passed |
| Validity.RacyMissesAWrite | src/cache.rs:184-194 | before that, on a mount of whole seconds, a write half a second in that a check does not see |
| Holds.ReleaseKeeps | src/watcher.rs:584-596 | users count the paths resting on each registration, the last to leave takes it down, lost or not, and no other path's hold changes |
| Holds.RegisterKeeps | src/watcher.rs:535-580 | the counts hold, a path is held exactly when it succeeds, a failed registration or upgrade changes no other path's hold, and the watcher lacks exactly what was lost and not restored |
| Holds.RegisteredExactly | src/watcher.rs:535-580 | a registration fails exactly if there is nowhere to watch, or what the worker has does not give what is asked and the watcher refuses; and precisely what each outcome leaves |
| Registrar.StepKeeps | src/watcher.rs:391-596 | every step of client and worker keeps the invariant of table, commands and holds |
| Registrar.IdleAgrees | src/watcher.rs:498-531 | under every interleaving, once drained: no path is pending; a path is active exactly when the worker holds it, on itself or the directory it names; a failed or unknown path holds nothing |
| Registrar.TellsTheLastAttempt | src/watcher.rs:498-548 | over every run, once drained, a path asked for is told what became of the last attempt at it: that it failed if and only if there was nowhere to watch or the watcher had to be asked and refused |
| Registrar.AlwaysCounted | src/watcher.rs:478-495 | at every moment users is the number of held paths on a registration and positive, the registered paths are the image of the held, and a recursive path rests on a recursive registration |
| Registrar.MissingIsLost | src/watcher.rs:521-562 | over every run a registration the worker counts on is missing from the watcher if and only if a step lost it and none since restored it or took it down |
| Registrar.ActiveIsWatched | src/watcher.rs:286-299 | once drained, a path told it is active is watched as it asked if and only if its registration is not lost |
| Registrar.LostIsToldActive | src/watcher.rs:557-561 | a run of three asks after which a path is told it is watched through a directory the watcher no longer has |
| Registrar.SettleIsLatest | src/watcher.rs:507-514 | settling writes an ask exactly while it is the path's latest, with no command about the path left to come, and touches no other path |
| Registrar.PendingIsComing | src/watcher.rs:391-402 | a pending path's latest ask is on its way or being worked on |
| Registrar.OthersKeepTheirs | src/watcher.rs:553-580 | taking a command changes no other path's hold and weakens no registration it rests on |
| Registrar.DrainsOut | src/watcher.rs:498-531 | without further calls the worker is idle within a bounded number of steps |
| Registrar.BusyCanStep | src/watcher.rs:498-531 | and until it is idle it has a step to take |
| WatchThread.Worker.Release | src/watcher.rs:584-596 | the maps changed in place as the release says |
| WatchThread.Worker.Acquire | src/watcher.rs:553-580 | one user more, an upgrade, a new registration, or the failure and what it leaves |
| WatchThread.Worker.Register | src/watcher.rs:535-548 | the state a path is told, and its hold exactly when it is active |
| WatchThread.Watches.Take | src/watcher.rs:498-531 | a command up to settling it, as the step says, the invariant kept |
| WatchThread.Watches.Ask | src/watcher.rs:391-402 | the client's first step of a watch, the invariant kept: whatever was on its way for the path, this ask is the one that will settle it |
| WatchThread.Watches.Drop | src/watcher.rs:405-408 | the first step of an unwatch, the invariant kept: whatever was on its way for the path, letting it go comes last |
| WatchThread.Watches.Send | src/watcher.rs:401 | the client's second step: nothing of what is ahead changes |
| WatchThread.Watches.Settle | src/watcher.rs:507-514 | an ask is written if and only if no later command about its path is on its way, and the path then stands as the worker holds it |
| Walk.PathChain | src/query.rs:152-168 | the directory and each above it, nearest first, then the global entry |
| Walk.PathChainReaches | src/query.rs:138-168 | a directory above is a link exactly when `$HOME` does not cut it off; no link twice; the global entry once, last |
| Walk.ReadChain | src/query.rs:186-196 | the directory chain is a suffix, every reached root is there, nothing twice, the global entry exactly once and last |
| Walk.InstanceWalk.Asks | src/query.rs:272-294 | what is asked: at first about where the read is, or at the global entry about `$HOME` for a nearest Source that has one and else about `~`; then the parent, unless that is `$HOME` or there is none; and nothing exactly at `~`, after a nearest Source's one instance, or when it found none |
| Walk.InstanceWalk.Step | src/query.rs:299-323 | the next instance, never one already visited; the 65th is refused |
| Walk.Collect | src/query.rs:332-351 | the loop over questions and steps gives what the recursive walk gives, and what it gives is what it has seen |
| Walk.NearestIs | src/query.rs:217-219 | a nearest Source's walk is the one instance its `root` finds where the read is, or at `$HOME` for a read at the global entry, or none |
| Walk.CascadeIs | src/query.rs:210-215 | a cascading walk that ends has gone through exactly what `root` finds where the read is, then for the parent of each instance, to `~` where that is `$HOME`, nothing, or an instance already visited |
| Walk.WalkIsSound | src/query.rs:210-245 | for any root whatever: at most 64 instances, pairwise distinct, a cascading walk ending in exactly one global instance and a nearest one with at most one, and no failure but the root's own or the 65th instance of a cascading walk |
| Walk.NotRefused | src/query.rs:316-320 | a root that settles is not refused where there can be at most 64 instances |
| Walk.DeepChainRefused | src/query.rs:198-200 | with no `$HOME`, a start 63 levels down or more is refused by the root that answers each directory with itself |
| Walk.RefusedExactly | src/query.rs:316-320 | no root that settles is refused if and only if the start leaves room for at most 64 instances, counted with `$HOME` and without |
| Channels.StepKeeps | src/watcher_registry.rs:51-109 | every step of subscribe, notify, drop and sweep keeps the invariant |
| Channels.NobodyIsLost | src/watcher_registry.rs:68-83 | at every moment of every interleaving a live subscription's receiver is attached to the channel at its key |
| Channels.EverybodyHears | src/watcher_registry.rs:85-99 | a notification is sent to every live subscription of its key and to no other |
| Channels.HearsItsKey | src/watcher_registry.rs:68-99 | a subscription made to a key is one of that key until it is dropped, and has heard precisely the notifications of the key begun since |
| Channels.NothingIsLeft | src/watcher_registry.rs:51-59 | once every drop has finished the keys are exactly those of live subscriptions |
| Channels.WatcherRegistry.Subscribe | src/watcher_registry.rs:68-83 | a receiver on the channel at the key, made if there is none |
| Channels.WatcherRegistry.Send | src/watcher_registry.rs:85-91 | every receiver of the key's channel is sent to, and the send fails if there is none |
| Channels.WatcherRegistry.FinishDrop | src/watcher_registry.rs:51-59 | the second step of a drop |
| Channels.WatcherRegistry.FinishNotify | src/watcher_registry.rs:92-98 | the second step of a notification that found nobody |
| Channels.WatcherRegistry.RemoveIfUnheard | src/watcher_registry.rs:106-109 | the channel goes exactly if nobody listens |
| Channels.WatcherRegistry.Gc | src/watcher_registry.rs:101-103 | exactly the channels without receivers go |
| Channels.BaseOfFacet | src/watcher_registry.rs:7-11 | a namespace and its facets share one base |
| Channels.KeyTellsApart | src/watcher_registry.rs:10-16 | two watch keys are the same exactly for the same base and directory |

## Left out

* The two `expect`s of `start` that a daemon's runtime is there.
* The run itself: executing Sources, the blocking pool, timers and timeouts. A run's result is any result.
* A panic inside `settle`, after which the drop of `Settle` settles again (`src/run.rs:751-775`): a task settles once.
* `Run::outcome` and `Run::wait` as blocking calls: their loops are the `Follow` and `Return` steps of a waiting thread, and `OutcomeNow`.
* A State is an id here, not a shared pointer; `blocked`, `decided` and `stores` record what waiting threads hold, what threads are about to write, and the stores made.
* Arrays inside values, with `is_array_element` and the array case of `in_the_way`: a value is a scalar or an object.
* The head of a key beyond its shape: facets, reserved words and provider names; and a segment as the index of an array.
* `insert_path` and `remove_path` are recursive here and walk with a cursor in the source.
* The stored keys a put's schedule mirrors into `<p>:cache`, `status` rows and `list_entries`: bookkeeping.
* `reseed_static` and the writes of `config:` labels: the seeds of an entry are given in composition order.
* That puts, removals and evictions leave the layers below alone: the put layer is a value of its own here, so there is nothing to state.
* Provider lines and templates: a rendered `result` is any tree with exact and honest records of its own. That its inputs' records too are noted from unquoted keys (`src/shape/provider.rs:720-722`) is not modelled.
* Removals, expiry and unpersisted puts in the replay theorem: a deeper unpersisted put can overwrite a scalar that the log still holds, so it is stated for persisted puts.
* A live put lands in the cache and is recorded in two steps with no lock across them (`put` in `src/server.rs`), so two puts at once may be logged in the other order: the log is taken in the order of landing.
* Reading and writing the file of persisted puts: it holds what was last written, and a failed write is not modelled.
* Associativity of the merge, which does not hold when scalar and object clash over three layers.
* Hashing: the stamps' hash is the stamps. The wall clock and the clock of records run together, and change counters do not wrap.
* `Registrar::retry` and `look_again`: runs of `watch`, which are taken at any time for any path. One client calls the registrar, as the scheduler's loop does.
* `Barrier` in `src/watcher.rs`: its promise rests on a 20 ms limit and on delivery by the operating system.
* The capacity of a broadcast channel, and a receiver that lags behind it.
* Configuration, the client, the command line, the server's protocol and the benches.
- PersistLog.ReplayRebuilds: states the tree and the put governing each leaf, not the stamps, which may differ; `ReplayReads` says what that changes and when.
