# Lainlet, modelled and proved in Dafny

Lainlet keeps an in-memory copy of a part of etcd, follows etcd's events, and pushes
prefix-filtered snapshots to many subscribers over HTTP event streams. This project models the
path a value takes, from a change in etcd to a line read by a client, and proves what holds along
it over every run.

`dafny verify dfyconfig.toml` checks everything.

| module | what it models |
|---|---|
| `Text`, `Paths` | the library functions used (split, join, trim, decimal numbers, `path.Join`) and the key functions of `store/store.go`, `store/etcd/etcd.go` and `api/v2/utils.go` |
| `Store` | etcd as a history of changes, the events a recursive watch reports, the node tree and its flattening |
| `Cacher` | the prefix-queried map |
| `Broadcast` | the broadcast protocol as a state machine over its atomic steps |
| `Sender` | the class that runs that protocol; `View()` is the machine's state |
| `Watcher` | the base watcher's class, its event step as a function, and what a run of events keeps |
| `Replica` | whole runs: store changes, tree reads, watches, deliveries and lost connections in any order |
| `Acknowledged` | where a watch resumes: the index the watcher remembers, against the changes delivered to it |
| `Joint` | a watcher and all its receivers in one machine: the runs of `Replica` interleaved with the steps of `Broadcast` |
| `ClassRuns` | that what the base watcher's class does is a run of that machine |
| `PathWatcher` | the watchers whose cache keys are paths: config, podgroup, depends, nodes |
| `Requests` | what queries, watches and whole requests see, in every state of every run |
| `Witnesses`, `ContainerWitnesses` | runs that reach the states singled out by the exact conditions |
| `PodGroups`, `Container`, `ContainerIndex` | the container watcher, its inverted table, and both over whole runs |
| `EventStream`, `ServerSentEvents` | the printer of events, the bundled client's parser, and the standard's parser (sections 9.2.5 and 9.2.6 of the WHATWG HTML Living Standard) |
| `HandleWatch`, `FrameIds` | a watch request: first view, then one frame for each change of the view; the numbers of the frames |
| `Sorting`, `Iteration`, `WebRouter`, `StreamRouter` | the view builders: grouping, in-place sorting, counting, independence from map order |

The main results, each for all inputs or all runs:

* **Reconnecting.** A fresh snapshot with the overlapping events played over it agrees with the
  store about a key if and only if the last change concerning that key was treated alike by both
  (`Replica.ReplayIsExact`, `PathWatcher.EveryRunConverges`). The verdict on a change is computed
  from the history alone. A watch resumes right after the last change delivered that was a removal or
  a write of a readable value, and from the first such change on it skips nothing
  (`Acknowledged.EveryRunAcknowledges`, `Acknowledged.EveryWatchResumes`).
* **The container index.** At every position of every watch, with no assumption on names: what is
  cached has an owner, and the owner places it so in the store if and only if the last change
  concerning the owner was applied alike to both, or there was none and the store had it so when
  the watch began (`ContainerIndex.EveryRunIsSound`). Nothing is cached without a live owner that
  describes it exactly, except for owners overwritten with unparseable values, once a watch has
  caught up and has missed nothing (`ContainerIndex.EveryCaughtUpWatchIsSound`); a first watch can
  miss a removal (`ContainerWitnesses.StaleOwnerIsReached`). Where container keys are prefix-free
  and owned by one pod group at a time, the same verdicts say exactly which live containers are
  cached (`ContainerIndex.EveryRunIsComplete`); after catching up, all but those of pod groups
  evicted by a string prefix (`ContainerIndex.EveryCaughtUpWatchIsComplete`).
* **The broadcast protocol.** No panic, at most one note waiting, notes numbered 2, 3, 4, ... under
  every interleaving (`Broadcast.EveryRunIsSafe`). A receiver with an empty channel that a changed key
  concerns gets exactly one note, with the broadcast's action and the present answer to its key
  (`Broadcast.VisitSends`), and cancelled receivers leave the list in the end
  (`Broadcast.CancelledLeaveInTheEnd`).
* **Receivers.** In every joint run of store, watcher and receivers, for every kind of watcher and
  with no assumption at all, an open receiver whose latest note was not dropped and that no
  broadcast has yet to reach holds what a query answers now if and only if it was not passed over
  (`Joint.EveryJointRunIsInTune`). Who is passed over follows from the cached data and the keys
  broadcast alone: by a refresh, whose range it empties (`Joint.RefreshOverlooks`; the very first
  refresh broadcasts nothing, so it passes over everyone whose answer it changes); by a removal,
  whose range it sweeps away with a cached key that is a proper prefix of theirs
  (`Joint.RemovalOverlooks`). Removals never do that in the path watchers, nor in the container
  watcher when its keys are prefix-free (`PathWatcher.ReceiversStayCoherent`,
  `ContainerIndex.ReceiversStayCoherent`). The last frame of an HTTP request follows from it, with
  and without notes (`Requests.LastFrameShowsTheCache`, `Requests.LastFrameShowsTheContainers`), up
  to what the store holds (`Requests.LastFrameShowsTheStore`).
* **The wire.** Client parser and printer undo each other on a list of messages if and only if every
  message is well formed (`EventStream.RoundTripExactly`); a standard reader gets a message
  unchanged if and only if it has no carriage return (`ServerSentEvents.StandardReadsExactly`).
* **Isolation.** Query and watch of an application see exactly the keys whose first component is its
  name, in every state of every run (`Requests.EveryRunIsolates`); a receiver registered for an
  application is only ever sent entries of that application (`Requests.ReceiversAreIsolated`).
* **The views.** One result for every visiting order and every unstable sort
  (`StreamRouter.ViewIsUnique`); every data frame of a web-router stream comes from a snapshot with
  a living majority (`WebRouter.EveryFrameIsAlive`), and what a view shows of each pod group is said
  field by field (`WebRouter.ViewShowsThePods`, `StreamRouter.ViewInWords`).

## How the source is represented

* Go's nil in the cache and in converted maps is `None`; a channel of capacity one is a sequence;
  a nil receiver slot is `None`, or `null` in the class.
* The order in which Go ranges over a map is an argument `order`, or a choice with `:|`. Results
  that do not depend on it are proved so.
* `sort.Slice` is an in-place sort known to its callers only by its contract: sorted, a
  permutation, equal elements in any order.
* JSON decoding is a parameter: `parse` for stored values (`None` is malformed), `ports` for an
  annotation, `encode` for a view. The theorems hold for all of them.
* Text is a sequence of Unicode scalar values, so valid UTF-8 is assumed. Ids are natural numbers;
  the client's limit to 63 bits is explicit, and counters are assumed not to reach 2^64.
* The change at position n of the store's history has etcd index n + 1. A watch reports changes
  below the watched directory, and removals of it, below it or above it. `Replica.Legal` says which
  changes are considered: keys are clean paths, and no value is stored at the watched directory
  itself, which the path watchers' conversion would crash on.
* A broadcast is not one atomic step: cancelling a context and reading a channel may fall between
  any two slots, as they take no lock. The class methods run without such interruptions, which is
  one of the machine's runs (`Broadcast.BroadcastIsARun`, `ClassRuns.WatchStoreIsAJointRun`); the
  machine covers the others.
* In the machines the cache takes its new contents in one step with the start of their broadcast.
  The code writes the cache entry by entry and then takes the lock; a receiver that registers in
  between is in the list when the broadcast begins, as one that registered just before.
* The history fields `start`, `taken`, `missed`, `registered`, `serial`, `sent` and `overlooked` are
  ghost or only read by specifications.

## Where the code and its documentation disagree

The code is followed, and the difference is a theorem.

* The README promises a search by prefix (README.md:65). A query whose key is itself stored answers
  with that entry alone; `Cacher.LookupIsRange` says exactly when the two are the same.
* The comment on `Watch` says the channel is closed when the context is cancelled
  (watcher/sender.go:86). It is closed by the next broadcast: `Broadcast.CancelDoesNotClose`.
* The README says the ids of a stream go up one by one from 1 (README.md:55). A note that changes
  nothing uses up an id: `FrameIds.IdsAreConsecutiveExactly` says exactly when there is no gap,
  and `FrameIds.EveryRunNumbersFrames` that ids always increase.
* The comment on `SendEvent` says only the first line of the content is sent (api/event.go:63). All
  lines are sent, and a standard reader joins them again; the bundled client splits them into
  several responses: `ServerSentEvents.ClientSplitsLines`.
* The comment on `Normalize` gives the form `/path/to/key`. A key that starts with a slash gets a
  second one; the etcd client removes one again: `Paths.NormalizeIsIdentity`.
* The comment on the base watcher's `Watch` promises the newest data in the channel from the start
  (watcher/watcher.go:178). The channel starts empty, and the data can fall behind. A refresh after
  a lost connection announces the keys the cache has afterwards, so a receiver whose whole range
  vanished is not woken: `Joint.RefreshOverlooks` says exactly who, and
  `Witnesses.RefreshCanOverlook` is a run. A change between a request's first query and its
  registration is not shown until the next one: `Requests.LastFrameShowsTheCache` says exactly when
  the last frame is current, and `Witnesses.FirstQueryCanMiss` is a run.
* A first watch begins "now", after its snapshot; what changed in between is missed:
  `PathWatcher.FirstWatchCanMiss`, with the exact condition in `PathWatcher.EveryPositionConverges`.
* The README promises the web router an error when more than half of the *containers* have no
  address (README.md:92); the code counts pods by their first container. `WebRouter.DocumentationDiffers`
  gives an input for each direction, `WebRouter.DocumentationAgrees` says when the verdicts coincide,
  for instance when every web pod has exactly one container.

## Model

| member | source | states |
|---|---|---|
| Text.JoinSplit | store/store.go:172-185 | joining the pieces of any string gives the string back |
| Text.SplitJoin | store/store.go:172-185 | splitting undoes joining exactly on non-empty lists of separator-free pieces |
| Text.PiecesAreApart | store/store.go:172-185 | no piece of a split text contains the separator |
| Text.TrimSpaceResult | client/client.go:140-158 | trimming removes white space at both ends and nothing else, and changes a text only if there is some |
| Text.ParseIntDecimal | client/client.go:149 | a printed id is read back exactly when it fits a signed 64-bit integer |
| Text.ParseIntAccepts | client/client.go:149 | what is read as a number is an optional sign and digits, at least one, in the signed 64-bit range |
| Text.ParseIntSigned | client/client.go:149 | a plus sign does not matter; a minus sign negates, up to 2^63 |
| Text.DecimalShape | api/event.go:100 | a number is printed without leading zeros, with one digit exactly below ten |
| Paths.NormalizeIsIdentity | store/store.go:168-185 | splitting and joining a key gives it back, and no part has a slash; the etcd form of every key is the key itself |
| Paths.CleanFixpoint | watcher/config/config.go:21-23 | cleaning a rooted path changes nothing exactly when all its components are ordinary names, or it is "/" |
| Paths.CleanSteps | watcher/config/config.go:21-23 | cleaning drops empty and "." components, and ".." undoes the name before it or stays at the root |
| Paths.JoinBelowRoot | watcher/config/config.go:21-31 | cutting the root off a key below it and joining it on again gives the key exactly when the key is canonical |
| Paths.ApplicationIsolation | api/v2/utils.go:3-12 | a key has the fixed prefix of an application exactly when the application is its first path component and the key goes on |
| Paths.FixPrefixKeeps | api/v2/utils.go:3-12 | a slash is added exactly to a prefix that is not empty and does not end in one |
| Paths.FixPrefixSeparates | api/v2/utils.go:3-12 | no key has the fixed prefixes of two applications; fixing twice is fixing once |
| Store.TravelNodes | store/etcd/etcd.go:312-326 | the pairs returned are the leaves of the forest |
| Store.LeavesInOrder | store/etcd/etcd.go:312-326 | the leaves of two forests in a row are those of the first followed by those of the second: tree order |
| Store.LeavesAreFiles | store/etcd/etcd.go:312-326 | a pair is listed exactly when it is a file somewhere in the forest; directories are not listed |
| Store.LeavesDistinct | store/etcd/etcd.go:312-326 | in a well-formed tree no key is listed twice |
| Store.TreeEnumerates | store/etcd/etcd.go:260-285 | reading a well-formed tree that represents the store gives every pair below the root exactly once |
| Store.InvisibleIsHarmless | store/etcd/etcd.go:172-205 | a change a recursive watch does not report leaves every key below the directory as it was |
| Cacher.Cacher.Put | watcher/cacher.go:25-33 | one entry replaced, or removed when the value is nil; all others as before |
| Cacher.Cacher.Reset | watcher/cacher.go:36-40 | the data are the given ones |
| Cacher.Cacher.Delete | watcher/cacher.go:44-63 | removes exactly the key, or every key that has it as prefix, and returns exactly the removed keys, each once |
| Cacher.Cacher.Get | watcher/cacher.go:66-81 | the entry stored at the key alone, or else all entries whose key has it as prefix |
| Cacher.Cacher.GetAll | watcher/cacher.go:84-93 | all data |
| Cacher.Cacher.GetAllKeys | watcher/cacher.go:95-103 | every key exactly once |
| Cacher.LookupIsLocal | watcher/sender.go:61-77 | changes of keys that do not have the prefix never alter a query's answer |
| Cacher.LookupIsRange | watcher/cacher.go:66-81 | a query is a prefix search exactly when its key is not stored or nothing longer is stored below it |
| Cacher.LookupInWords | watcher/cacher.go:66-81 | a query shows the entry stored at its key alone, or else those and only those whose key it begins, as they are stored |
| Cacher.LookupEverything | watcher/watcher.go:179-201 | the empty prefix answers with everything exactly when no entry has the empty key, or no other entry exists |
| Broadcast.ClearKeepsReceivers | watcher/sender.go:102-114 | a clean-up leaves no nil slot, loses no receiver and keeps the registration order |
| Broadcast.VisitSafe | watcher/sender.go:48-78 | one turn of the broadcast loop keeps safety: no panic, order, numbering, one note for each receiver |
| Broadcast.OtherStepsSafe | watcher/sender.go:40-114 | registering, cancelling, reading, beginning and ending a broadcast, and cleaning up keep safety |
| Broadcast.EveryRunIsSafe | watcher/sender.go:40-114 | under every interleaving: no send on or second close of a closed channel, at most one note waiting, at most one note for each receiver in a broadcast, ids 2, 3, 4, ... without gap or repetition, and the list holds exactly the receivers with an open channel, in registration order |
| Broadcast.EveryRunIsCoherent | watcher/sender.go:61-77 | of the protocol alone, for any runs whose changes are announced by their keys: an open receiver whose latest note was not dropped holds what a query of its key answers now, from a note or from its registration, except while a broadcast that concerns it has not reached its slot |
| Broadcast.PublishCoherent | watcher/sender.go:61-77 | any publication, announced or not, leaves exactly the receivers out of date that it passes over, as long as unannounced changes empty answers or were read by nobody |
| Broadcast.BroadcastIsARun | watcher/sender.go:40-83 | a whole broadcast is one publication, a visit of every slot in turn, and the end |
| Broadcast.BroadcastEach | watcher/sender.go:40-83 | a whole broadcast closes and unseats exactly the cancelled receivers, offers one note to exactly the open ones a changed key concerns, and touches no other |
| Broadcast.VisitSends | watcher/sender.go:61-77 | an open receiver a changed key concerns has after its visit exactly one waiting note, with the broadcast's action, the next number and the present answer to its key; if one was waiting already that one stays as it is and the new one is dropped; other receivers are left alone |
| Broadcast.ReceiversAreTheAsked | watcher/sender.go:87-100 | the receivers of any run are those that registered, in order, each under the key it asked for |
| Broadcast.BroadcastStartsCleanUp | watcher/sender.go:79-82 | a broadcast starts a clean-up exactly when it finds a nil slot and no fewer than half the number of slots, rounded down; the slots it makes nil itself do not count |
| Broadcast.BroadcastSlots | watcher/sender.go:48-58 | a broadcast makes exactly the slots of cancelled receivers nil |
| Broadcast.CancelledLeaveInTheEnd | watcher/sender.go:79-114 | when at least half of the slots are nil after a broadcast, the next one starts a clean-up, after which exactly the receivers not cancelled are listed, in order |
| Broadcast.CancelDoesNotClose | watcher/sender.go:85-100 | cancelling leaves the channel as it is; any later broadcast closes it |
| Sender.Sender.Watch | watcher/sender.go:87-100 | registers one new open receiver at the end of the list, under the key given, its channel empty and its counter 2, as the protocol's step does |
| Sender.Sender.Cancel | watcher/sender.go:53-54 | a context ends; only that receiver's flag changes |
| Sender.Sender.Receive | watcher/sender.go:64-65 | the reader gets the waiting note, if there is one |
| Sender.Sender.VisitSlot | watcher/sender.go:48-77 | one turn of the loop on the real slots and channels is one visit of the protocol, so sends what `VisitSends` says |
| Sender.Sender.Search | watcher/sender.go:62-76 | finds whether some changed key has the receiver's key as prefix |
| Sender.Sender.Broadcast | watcher/sender.go:40-83 | the new state is the protocol's whole broadcast of the present data |
| Sender.Sender.Compact | watcher/sender.go:106-111 | the non-nil receivers in their order |
| Sender.Sender.ClearNilReceivers | watcher/sender.go:102-114 | the new state is the protocol's clean-up step |
| Watcher.BaseWatcher.Refresh | watcher/watcher.go:81-96 | replaces the whole cache by the converted tree, a missing directory counting as empty; on any failure the cache stays |
| Watcher.BaseWatcher.Connect | watcher/watcher.go:107-116 | a refresh, and after a lost connection one broadcast of all keys the cache has then |
| Watcher.BaseWatcher.PutAll | watcher/watcher.go:142-152 | the cache is overlaid with the converted pairs, nil entries removing; the buffer holds exactly their keys, each once |
| Watcher.BaseWatcher.DeleteAll | watcher/watcher.go:154-161 | removes every key that extends a key whose store key has the path as prefix; the buffer holds exactly the latter, each once |
| Watcher.BaseWatcher.HandleEvent | watcher/watcher.go:135-168 | state, receivers and index after any event, with the keys broadcast; the buffer is empty again, also after a failed conversion; `HandleAcknowledges` says which index |
| Watcher.BaseWatcher.WatchStore | watcher/watcher.go:99-174 | one turn of the outer loop: refresh, all events of a channel in order, and the request to broadcast after the next refresh |
| ClassRuns.WatchStoreIsAJointRun | watcher/watcher.go:99-174 | what a turn of the class does, with the events a watch reports while the store goes on changing, some moves of the joint machine do |
| ClassRuns.ReachedIsARun | watcher/watcher.go:99-174 | so from a joint run the class goes on to a joint run |
| Watcher.BaseWatcher.Watch | watcher/watcher.go:179-188 | an empty prefix is an error and registers nothing; otherwise the new receiver's key is the prefix, the empty one for "*" |
| Watcher.BaseWatcher.Get | watcher/watcher.go:192-201 | an empty prefix is an error; "*" answers with everything |
| Watcher.DeltaIsAnnounced | watcher/watcher.go:141-168 | an event's broadcast names every key it changed exactly when no cached key outside the hits extends a hit |
| Watcher.QueryAgreesWithPush | watcher/watcher.go:179-201 | query and watch of the same prefix show the same data; for "*" exactly when no entry has the empty key besides others |
| Replica.MirrorByVerdict | watcher/watcher.go:124-170 | what the last change concerning a key means for cache and store |
| Replica.ReplayIsExact | watcher/watcher.go:107-118 | snapshot plus overlapping replay agrees with the store about a key exactly when the verdict on the last change concerning it is harmless; for all key names |
| Replica.MirrorConverges | watcher/watcher.go:107-170 | the replayed copy is the whole store below the root exactly when no live key was last evicted or garbled; and for all key names, each of its pairs whose key does not hold an unparseable value is in the store |
| Replica.CaughtUpByVerdict | watcher/watcher.go:107-118 | for a watch that missed nothing, resumed or first, the verdict on a key's last change says all about cache and store |
| Replica.SafeNamesConverge | watcher/watcher.go:154-161 | with parseable values and no removed path a mere string prefix of a live key, the copy is the store |
| Replica.EvictionHappens | watcher/watcher.go:154-161 | removing "/c/vip" evicts "/c/vips", which the store keeps |
| Replica.EveryRunIsTracked | watcher/watcher.go:99-174 | in every run the watcher's state is its refreshed state with the visible changes since the watch began handled in order; a resumed watch begins no later than its snapshot |
| Acknowledged.HandleAcknowledges | watcher/watcher.go:141-165 | a delivered change sets the index to its own exactly when it is a removal or a write of a readable value |
| Acknowledged.EveryRunAcknowledges | watcher/watcher.go:99-174 | in every run the index is that of the last change delivered, by whichever watch, that was a removal or a write of a readable value, and 0 if there was none; from the first such change on nothing before a watch's position was skipped |
| Acknowledged.EveryWatchResumes | watcher/watcher.go:118 | a watch that opens begins right after that change, or at the end of the history if there was none |
| Acknowledged.PathsRead | watcher/config/config.go:25-31 | for a path watcher, exactly the values that parse are readable |
| Acknowledged.ContainersRead | watcher/container/container.go:64-70 | the same for the container watcher |
| Joint.JointIsARun | watcher/watcher.go:99-174 | the store and watcher of any joint run are in a state that a run of `Replica` reaches |
| Joint.EveryJointRunIsInTune | watcher/watcher.go:99-174 | for every kind of watcher and whatever the interleaving of events, lost connections, refreshes, registrations, reads, cancellations and clean-ups: the protocol is safe and serves the cache's data, and every open receiver whose latest note was not dropped and that is not due one holds the present answer exactly when it was not overlooked |
| Joint.EvictionAtKey | watcher/cacher.go:49-55 | a removal that names no key of a receiver either empties its whole range, exactly when a hit is a prefix of its key, or leaves all of it |
| Joint.RemovalOverlooks | watcher/watcher.go:154-167 | a removal passes over exactly the receivers of which it names no key while a hit is a proper prefix of their key and their range was not empty; and of those already passed over, whoever it neither names nor empties stays so |
| Joint.AnnouncedOverlooksNobody | watcher/watcher.go:141-168 | an event whose broadcast names every key it changed passes over nobody new |
| Joint.RefreshOverlooks | watcher/watcher.go:107-116 | a refresh passes over exactly the receivers whose range is empty afterwards and was not before, and those already passed over whose range was empty and stays so |
| Joint.UnbrokenRunsOverlookNobody | watcher/watcher.go:124-170 | as long as no connection is lost nobody is overlooked, if receivers register after the first tree was read |
| Joint.NoticesNameTheirCause | watcher/watcher.go:112-167 | the broadcast after a refresh says SET; that of a delivered write says UPDATE and that of a removal DELETE |
| Joint.LaterRefreshesAreAnnounced | watcher/watcher.go:107-133 | in every run the first refresh broadcasts nothing and every later one, as SET, exactly the keys the cache has after it |
| Joint.EveryNoteIsOk | watcher/sender.go:64-68 | in every joint run every note says SET, UPDATE or DELETE, and shows nothing outside its receiver's range |
| Joint.JointReceiversAreTheAsked | watcher/sender.go:87-100 | the receivers of any joint run are those that registered, in order, each under its own key |
| PathWatcher.Convert | watcher/podgroup/podgroup.go:32-44 | fails at the first value that cannot be parsed, else the map of the pairs under their cut keys |
| PathWatcher.ConvertedShowsStore | watcher/config/config.go:25-31 | converting an enumeration of the store gives exactly one entry for each key below the root, with its parsed value, or fails exactly because some value cannot be parsed |
| PathWatcher.TreeToCache | watcher/watcher.go:81-96 | after reading a well-formed tree the cache has one entry for each leaf; the inverted key is the leaf's full key exactly when that is canonical; no entry has the empty key |
| PathWatcher.HitsAreClosed | watcher/watcher.go:155-161 | a removal hits exactly the keys whose store key has the path as string prefix, and removes exactly those |
| PathWatcher.EventKeepsStep | watcher/watcher.go:141-163 | SET, UPDATE and DELETE keep the cache in step with the replayed store |
| PathWatcher.EventIsAnnounced | watcher/watcher.go:141-168 | every event's broadcast names every key it changed |
| PathWatcher.EveryRunAnnounces | watcher/watcher.go:141-168 | in every run every event's broadcast names every key it changes |
| PathWatcher.ReceiversStayCoherent | watcher/sender.go:61-77 | every joint run of a path watcher and its receivers is in tune, and all its events are announced |
| PathWatcher.EveryRunShowsMirror | watcher/watcher.go:99-174 | in every run, at every position of a watch, the cache is the converted snapshot with the changes since played over it |
| PathWatcher.EveryRunConverges | watcher/watcher.go:99-174 | in every run, once a watch has caught up with its snapshot, the cache holds a key as the store does exactly when the verdict on its last change is harmless |
| PathWatcher.EveryPositionConverges | watcher/watcher.go:101-118 | at every position of every watch the cache holds a key as the store does exactly when the verdict on its last change is harmless, or nothing concerned it since the watch began and the snapshot read as the store did then |
| PathWatcher.EveryRunConvergesSafely | watcher/watcher.go:99-174 | with parseable values and prefix-safe names, at every position of every watch, the cache is the converted store exactly when no unconcerned key was missed |
| PathWatcher.CaughtUpMissesNone | watcher/watcher.go:107-118 | a resumed watch past its snapshot missed none, nor did a first watch if no change in between was one it reports |
| PathWatcher.FirstWatchCanMiss | watcher/watcher.go:102-118 | a run whose first watch never delivers a change made after the first tree was read |
| PathWatcher.RootsAreCanonical | watcher/config/config.go:11-14 | the directories watched are canonical paths, as the theorems about canonical roots require |
| Requests.EveryRunIsCanonical | watcher/config/config.go:21-31 | in every state of every run each cached key continues the root to a canonical path |
| Requests.WildcardAgrees | watcher/watcher.go:179-201 | in every state of every run no cached key is empty, and a query and a watch of "*" show the same full map |
| Requests.QueryOfApplication | api/v2/utils.go:3-12 | a query of an application answers with its entries exactly when no key ends right after the name's slash, or that is its only key |
| Requests.WakesForApplication | watcher/sender.go:62-76 | a broadcast concerns an application's watcher exactly when it changed one of the application's keys |
| Requests.EveryRunIsolates | api/v2/utils.go:3-12 | in every state of every run query and watch of an application see exactly the keys whose first component is its name |
| Requests.ReceiversAreIsolated | watcher/sender.go:61-68 | in every joint run of every kind of watcher, a receiver registered for an application is only ever sent entries of that application |
| Requests.ContainerWildcardAgrees | watcher/watcher.go:179-201 | in every state of every run of the container watcher no cached key is empty, and a query and a watch of "*" show the same full map |
| Requests.LastFrameShowsTheCache | api/server.go:151-210 | in every joint run of a path watcher, for a request that has read all there is for it: the last data frame shows the present view exactly when there was a note or the view did not change between first query and registration, unless its receiver was overlooked; and in any case exactly when the data last used look like the present ones |
| Requests.LastFrameShowsTheContainers | api/server.go:151-210 | the same for the container watcher, whatever its keys |
| Requests.LastFrameShowsTheStore | api/server.go:151-210 | and with the watch at the head of the history and no change missed, parseable values and prefix-safe names, the last frame shows the view of what the store holds |
| Requests.EveryRunShowsNodes | api/v2/container.go:47-56 | in every state of every run query and watch of a node agree, and see exactly the entries under its name or address if and only if no container with an empty id is cached there, or it is the only one |
| Requests.NodeEntriesAreItsContainers | watcher/container/container.go:99-114 | what is cached under a node's name or address is a container on that node, when names and addresses have no slash |
| Witnesses.FirstQueryCanMiss | api/server.go:153-174 | a run in which a change falls between a request's first query and its registration, and the last frame does not show the present view |
| Witnesses.RefreshCanOverlook | watcher/watcher.go:112-116 | a run in which a refresh empties a receiver's range and the receiver keeps the old answer |
| Container.PlacedAreTheContainers | watcher/container/container.go:97-116 | a pod group's entries are those of its containers under both their keys and nothing else; of containers that share a key the last is shown, field by field: application from the namespace, proc from the name, and the container's and its pod's own details |
| Container.VersionIsTheFirst | watcher/container/container.go:87-96 | the version shown is that of the first variable of the form LAIN_APP_RELEASE_VERSION=v with no second equals sign, or empty when there is none |
| Container.InfoIsShown | watcher/container/container.go:101-110 | what is computed for a container has exactly the fields said, one by one |
| Container.ContainerWatcher.InvertKey | watcher/container/container.go:53-59 | the owner in the table, or the empty string |
| Container.ContainerWatcher.FindVersion | watcher/container/container.go:87-96 | the first well-formed release version among the variables |
| Container.ContainerWatcher.Forget | watcher/container/container.go:77-86 | exactly the keys assigned to the pod group leave the table and become nil in the result |
| Container.ContainerWatcher.Place | watcher/container/container.go:87-116 | exactly the pod group's entries are written to result and table |
| Container.ContainerWatcher.Convert | watcher/container/container.go:61-120 | result and table after a batch, also when it fails midway: the table keeps what was done |
| Container.NilMeansUnowned | watcher/container/container.go:64-118 | in the result of any batch a key is nil exactly when the table has no owner for it: tombstones never overwrite containers of the same batch |
| Container.BatchIsExact | watcher/container/container.go:64-118 | for distinct store keys that parse: the last pod group placing a key owns and describes it, a key nobody places that belonged to the batch becomes nil and unowned, any other key is untouched |
| ContainerIndex.HandleAt | watcher/container/container.go:61-120 | what each kind of event does to cache and table at each single key |
| ContainerIndex.EveryRunIndexesMirror | watcher/container/container.go:61-120 | in every run and at every position each cached container is the exact entry of the pod group the table names, and nil entries have no owner |
| ContainerIndex.EveryRunIsSound | watcher/container/container.go:61-120 | at every position of every watch, for all names: a cached container has an owner below the root, and the store's pod group of that name places it there with exactly those details, field by field, if and only if the verdict on the owner is a faithful change, or none and the store had it so when the watch began |
| ContainerIndex.EveryCaughtUpWatchIsSound | watcher/container/container.go:61-120 | once a watch has caught up and missed nothing the owner is live and describes the container exactly, unless it now holds an unparseable value |
| ContainerIndex.EveryRunIsComplete | watcher/container/container.go:61-120 | at every position of every watch, with prefix-free container keys owned by one pod group at a time: a container of a live pod group is cached, owned and exactly described, if and only if the verdict on the pod group is a faithful change, or none and the snapshot had the entry as the store did when the watch began |
| ContainerIndex.EveryCaughtUpWatchIsComplete | watcher/container/container.go:61-120 | once the watch has caught up and missed nothing: if and only if the pod group was not last evicted by a string prefix |
| ContainerIndex.EventIsAnnounced | watcher/watcher.go:141-168 | with prefix-free container keys every event's broadcast names every key it changed |
| ContainerIndex.EveryRunAnnounces | watcher/watcher.go:141-168 | so in every run whose history has prefix-free container keys |
| ContainerIndex.ReceiversStayCoherent | watcher/sender.go:61-77 | every joint run of the container watcher and its receivers is in tune, whatever the keys; with prefix-free container keys all its events are announced |
| ContainerIndex.RefreshNil | watcher/container/container.go:77-86 | a refresh caches nil exactly for the keys the table assigns to a pod group of the snapshot while no pod group there places them |
| ContainerIndex.EveryRunCachesNilExactly | watcher/cacher.go:36-40 | in every run a nil is cached exactly when the refresh left it and no change since has placed its key or removed a key it extends |
| ContainerWitnesses.CollateralEviction | watcher/watcher.go:154-161 | a run without prefix-free keys in which a removal evicts another pod group's container, unannounced, while the store keeps it |
| ContainerWitnesses.NilIsReached | watcher/container/container.go:77-86 | a run that ends with a nil in the cache |
| ContainerWitnesses.StaleOwnerIsReached | watcher/watcher.go:101-118 | a run whose first watch caches a container of a pod group removed between tree and watch |
| EventStream.GenerateMessage | api/event.go:98-112 | the text printed for a message |
| EventStream.PrintedText | api/event.go:98-112 | the text literally: the id line, the event line unless the event is empty, the data lines unless the content is, a blank line |
| EventStream.PrintedLines | api/event.go:104-109 | one "data: " line for each line of the content |
| EventStream.Watch | client/client.go:127-166 | the responses the client's loop delivers from a whole stream |
| EventStream.ReadField | client/client.go:140-161 | what one line does to the response being read |
| EventStream.FieldReadsBack | client/client.go:140-158 | any printed field is read back with its name and its value trimmed |
| EventStream.LinesIgnored | client/client.go:143-161 | lines without a colon, fields of other names and ids that are no numbers change nothing |
| EventStream.LastLineCounts | client/client.go:133-139 | a last line without its newline counts as a line |
| EventStream.DecodeMessage | client/client.go:127-166 | a readable message gives one response with its id, event and content, or none when there is nothing to deliver, and then its id and event leak into the next |
| EventStream.RoundTrip | client/client.go:127-166 | well-formed messages come back in order, each once, whatever follows |
| EventStream.RoundTripExactly | api/event.go:98-112 | parser and printer undo each other on a list exactly when every message is well formed |
| EventStream.ResponsesAreOk | client/client.go:127-166 | from any stream at all, responses have one-line trimmed fields, an id below 2^63, and heartbeats no data |
| ServerSentEvents.InterpretMessage | api/event.go:98-112 | read by the standard, a message without carriage returns gives its content with every newline, and nothing exactly when the content is empty |
| ServerSentEvents.InterpretAll | api/event.go:98-112 | the same for a stream of messages, in order |
| ServerSentEvents.StandardReadsExactly | api/event.go:98-112 | a message with content reaches a standard reader unchanged exactly when it has no carriage return |
| ServerSentEvents.ClientSplitsLines | client/client.go:157-165 | the client turns two lines of content into two responses, the second without id and event |
| HandleWatch.EventSource.SendEvent | api/event.go:65-79 | the wire grows by exactly one printed message, or stays when the connection is closed |
| HandleWatch.EventSource.Close | api/event.go:88-96 | only the first call closes the connection |
| HandleWatch.Serve | api/server.go:151-210 | the messages sent for a request, whatever fails on the way; none when the connection is closed |
| HandleWatch.ServeNote | api/server.go:188-205 | what one note sends, the view after it, and whether the request ends; the view itself says what counts as a change |
| HandleWatch.RequestBegins | api/server.go:153-171 | a request begins with one "init" frame of the first view, numbered 1; when the first query, the view or its encoding fails, one message with id 0, event "error" and that error is all that is sent |
| HandleWatch.ChangesDiffer | api/server.go:192-205 | what is left of a list of views begins as it does; no view is lost and the last one kept if every difference counts as a change, and no two neighbours are equal if only differences do |
| HandleWatch.StreamIsChanges | api/server.go:151-210 | the data frames of a request are exactly the views that count as changes, the first included, encoded in order; for every notion of change |
| HandleWatch.EveryViewIsSent | api/v2/container.go:34-45 | where every view counts as changed, as for the list of containers, every view is sent |
| HandleWatch.FramesShowTheView | api/server.go:151-210 | if every difference counts as a change, the last data frame shows the latest view; if only differences count and encoding is injective, neighbouring frames differ |
| HandleWatch.LastFrameIsCurrentExactly | api/server.go:151-210 | what the last data frame shows in any coherent state of the protocol, with notes and without |
| HandleWatch.FirstFailureEnds | api/server.go:192-204 | the first note whose view cannot be made, or counts as changed and cannot be encoded, gives one error frame with id 0 and that error, the last of the request; nothing before it is an error |
| HandleWatch.StreamIsMade | api/server.go:151-210 | every data frame is the first, numbered 1 and named "init", or has the number of a note, is named "update" when the note says SET or UPDATE and "delete" when it says DELETE, and shows the view made from that snapshot |
| FrameIds.IdsIncrease | api/server.go:192-205 | data frames are numbered in increasing order from the first note on |
| FrameIds.EveryRunNumbersFrames | api/server.go:171-205 | under every interleaving the ids of a request's data frames increase, from 1 for the first |
| FrameIds.SafeStatesNumberFrames | api/server.go:171-205 | the same in every safe state of the protocol, so in joint runs |
| FrameIds.IdsAreConsecutiveExactly | README.md:53-58 | the ids have no gap exactly when no note that changes nothing comes before one that changes the view |
| HandleWatch.ClientReadsTheStream | client/client.go:127-166 | when views encode to single lines the client reads exactly the messages the server sent, with any heartbeats in between, and without them exactly the frames of the request |
| Sorting.SortSlice | api/v2/streamrouter_streamprocs.go:102-105 | in place: sorted, and a permutation |
| Sorting.SortedIsUnique | api/v2/streamrouter_streamprocs.go:102-105 | elements the order separates have only one sorted arrangement |
| Sorting.StringLessIsLexical | api/v2/streamrouter_streamprocs.go:102 | one name is less than another when it is a proper beginning of it, or less at the first difference |
| Iteration.SumAlongAnyOrder | api/v2/webrouter_webprocs.go:61-88 | adding up along any visiting order gives the sum over the keys |
| Iteration.PoolAlongAnyOrder | api/v2/streamrouter_ports.go:39-50 | collecting along any visiting order gives the same multiset |
| PodGroups.AliveCountsThem | api/v2/webrouter_webprocs.go:77-79 | the pods counted alive are those whose first container has an address |
| WebRouter.Make | api/v2/webrouter_webprocs.go:56-93 | the view or the error for a visiting order, and whether the view differs from the one shown |
| WebRouter.MakeProc | api/v2/webrouter_webprocs.go:68-86 | the pods of a proc with their containers, and how many have an address |
| WebRouter.MadeExactlyWhenAlive | api/v2/webrouter_webprocs.go:89-91 | a view is made exactly when there are web pods and at least half of them have an address, the counts being sums over all web procs |
| WebRouter.MajorityInWords | api/v2/webrouter_webprocs.go:71-91 | the sums count the pods of web procs and those of them whose first container has an address |
| WebRouter.DocumentationAgrees | README.md:92 | the documented rule, by containers, and the coded one, by pods, give the same verdict when all web pods have the same number of containers, each pod's all with or all without an address |
| WebRouter.WebNames | api/v2/webrouter_webprocs.go:63-67 | a proc is a web proc exactly when its name has the form app.web.name, the last part without a dot |
| WebRouter.ViewShowsThePods | api/v2/webrouter_webprocs.go:61-88 | every entry of a view is a web proc's and shows its pods in order, with the annotation, the containers' addresses and the exposed ports of the specification; every web proc has an entry, its own where names are distinct |
| WebRouter.DocumentationDiffers | README.md:92 | inputs on which the code shows what the documentation refuses, and the reverse |
| WebRouter.ViewIsOrderFree | api/v2/webrouter_webprocs.go:61-88 | with distinct names the result does not depend on the visiting order, and every web proc has its entry |
| WebRouter.EveryFrameIsAlive | api/v2/webrouter_webprocs.go:89-92 | every data frame of a whole request comes from a snapshot with a living majority |
| WebRouter.FirstDeadSnapshotEnds | api/server.go:192-196 | the first note without one ends the request with exactly one error frame, id 0 and the text "over half of the containers lost their IPs" |
| WebRouter.DeadFromTheStart | api/server.go:159-163 | a first snapshot without one is answered with exactly that frame and nothing else |
| StreamRouter.Make | api/v2/streamrouter_streamprocs.go:63-112 | succeeds exactly with a living majority; then every declaring pod group appears exactly once, under its namespace, with exactly its pods and ports, sorted at all three levels |
| StreamRouter.MajorityInWords | api/v2/streamrouter_streamprocs.go:89-108 | the same of the pods of declaring pod groups |
| StreamRouter.ViewInWords | api/v2/streamrouter_streamprocs.go:76-107 | a view lists the namespaces of declaring pod groups; for each as many procs as groups, each group's: its name, its pods' first addresses and numbers, and for each declared port a service listening on the source port and passing on to the destination port; names, numbers and listening ports ascend |
| StreamRouter.MakeUpstreams | api/v2/streamrouter_streamprocs.go:89-98 | one upstream for each pod, in order, and the number of living ones |
| StreamRouter.SortProcs | api/v2/streamrouter_streamprocs.go:101-107 | procs sorted by name, their lists by instance and port, and no content lost or added |
| StreamRouter.ViewIsUnique | api/v2/streamrouter_streamprocs.go:63-112 | with distinct names, instance numbers and ports there is only one such view: no dependence on map order or on unstable sorting |
| StreamRouter.MakePorts | api/v2/streamrouter_ports.go:35-53 | ascending, every declared source port as often as it is declared, and no other number |
| StreamRouter.PortsAreUnique | api/v2/streamrouter_ports.go:51 | there is only one such list |

## Left out

- Sorting.SortSlice: the algorithm of Go's `sort.Slice` is not modelled, only what it promises; the body here is a selection sort.
- HandleWatch.Serve: the request's context ending and the connection closing midway are left out; either cuts the messages sent short. The clock that sends heartbeats is left out, the heartbeats are not (`HandleWatch.ClientReadsTheStream`). Comparison by `reflect.DeepEqual` is equality of values, as one choice of `changed`.
- HandleWatch.EventSource.SendEvent: an event's data that is not text, which nothing is written for, is not an argument; a partial write before a connection breaks is left out.
- Watcher.BaseWatcher.WatchStore: waiting, cancellation of the watcher's context and the status fields are left out; a turn is given the tree and the events it receives.
- WebRouter.Make: requires that no pod has more containers than its specification lists, because the code's index is out of range there and panics.
- StreamRouter.Make: requires that every pod of a declaring pod group has a container, because the code's access to the first one panics otherwise; `Send` and `Expect`, which are never set, and JSON are left out.
- PathWatcher.Convert: a malformed value of the nodes watcher is skipped by the source instead of failing the conversion (watcher/nodes/nodes.go:34-37), so for nodes only well-formed values are covered.
- etcd: compaction of its event history, which makes an old index fail for ever, hidden keys, directories set or expired as such, and `WatchTree`, `Put`, `Delete` and `List` of the client.
- The depends and nodes watchers have the same shape as the path watchers shown; their roots and parsers are arguments.
- The gRPC endpoints (`endpoints/*.go`), the gRPC client and the generated messages: copies of the HTTP views with a shared change cache.
- Authorisation (`auth/auth.go`): request filtering, with caches that do not follow the scheme proved here.
- `GeneralPodGroup` and `LocalSpec`: their lists follow the map order, so equal data may compare unequal. `LocalSpec` also panics on a cached nil; `ContainerIndex.EveryRunCachesNilExactly` says when there is one.
- The other views filter and copy fields; the list of containers skips nil entries and always counts as changed, which `Api.changed` covers.
- HTTP, TLS, hijacked connections, the server's start-up, logging, JSON and the wall clock.
