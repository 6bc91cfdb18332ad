# AppProcessWatcher traffic pipeline

A Dafny model of how AppProcessWatcher turns captured packets into rows on screen and rows in SQLite, with
proofs of what holds over whole runs. `dafny verify dfyconfig.toml` checks everything.

The pipeline has four stages, and each is modelled in the form its code has.

1. `Tracker` (class `ConnectionTracker`): the hash map from direction-normalised 5-tuples to live counters, with
   timeout expiry, FIN/RST closing, saturating sums and fresh ids. A `Turn` is one input together with the order
   in which the hash map yields the expired keys, so a statement about every run is a statement about every
   iteration order and every clock, including clocks that run backwards.
2. `Runtime` (class `RuntimeWorker`), with `Correlator` (class `TrafficCorrelator`) and `Storage` (class
   `Database`): the fold of tracker and proxy events into packet counts, observations, tables and a message queue.
   Clock reads and process lookups are arbitrary data of each input.
3. `Replica` (classes `AppState`, `AppWatch`): the screen, which replays the queue in frames of at most 1024.
4. `Filter`, `Ja4Baselines`, `SessionTimer`, `Upgrade`: the filter language, the fingerprint baselines, the session
   timer and the Connection-header test.

Each class method is proved equal to a function on values; the laws are lemmas about those functions.
`EventStream` is the hinge: a log of tracker events is *accepted* when each event is legal after the ones before
it. The tracker emits only accepted logs, and everything downstream is proved for every accepted log, whatever
proxy events, process lists and user actions are interleaved with it. `Sessions` gives the packet log a meaning of
its own, by quantifying over positions, and shows that the tracker computes it. `Conservation`, `PipelineLaws`,
`Tracing`, `TableLaws`, `ScreenLaws`, `Frames` and `Replication` hold the laws over whole runs, and `FailingCases`
holds runs, with events that the tracker itself emits, on which a promise fails. What the shared tests and conversions
mean is stated beside them over characters, fields and numbers (`Text`, `Domain`, `Filter`, `Upgrade`, `Storage`).

## Assumptions named in the lemmas

- Ids: the laws about ids assume that the tracker's next id has not reached the top of its range
  (`nextId < U64_MAX`), and where rows of connections and requests share one id space that it is at most 2^63.
- Text is ASCII: case folding touches A to Z, and whitespace is the six ASCII characters.
- Time is an integer number of nanoseconds relative to the Unix epoch.
- An IP address is its family and its canonical text.

## What the proofs turned up

Where a promise fails, a lemma gives inputs on which it does and another says exactly when it holds, or for the
session timer by how much it can fail.

- The foreign key from requests to connections holds because the *first* report of a connection is stored; it
  fails exactly when every report so far was rejected and no older row exists
  (`PipelineLaws.ForeignKeyFailsExactly`), as with a clock before the epoch
  (`FailingCases.ReportBeforeEpochBreaksForeignKey`). The call that saves a connection stores its process even
  when it goes on to fail.
- Ids restart with each launch while the database file stays. A row overwritten by a later launch shows new data
  under its old start time (`FailingCases.NextLaunchKeepsOldStart`, `FailingCases.NextLaunchKeepsOldRequestStart`);
  the time is this run's own exactly when no row was found or the old time is equal
  (`TableLaws.ConnectionStartsAtFirstReport`, `TableLaws.RequestStartsAtFirstTaken`).
- For the same reason an old request can end up referring to an unrelated connection that took the id
  (`FailingCases.NextLaunchMisdirectsRequest`, `TableLaws.OldRequestFollowsNewReports`). A request of the present
  run refers to a connection between its own ends exactly when a report of it was stored in this run, or the row
  found has those ends anyway (`TableLaws.StoredRequestPointsHome`).
- The correlator never hears of a close. A request can be traced to a connection that is closed
  (`FailingCases.ClosedConnectionIsTraced`), and a connection reopened within the window hides behind its closed
  predecessor (`FailingCases.ReopenedConnectionIsMissed`); `Tracing.OnlyClosedConnectionsInterfere` says exactly
  when a live connection is found.
- A filter such as `port:+443` or `status:0200` is accepted as valid but misses the row with that number
  (`Filter.PlusSignMissesPort`, `Filter.LeadingZeroMissesStatus`): only the canonical text of the number finds it
  (`Filter.PortIsFoundByCanonicalText`, `Filter.StatusIsFoundByCanonicalText`).
- The value of a filter is lowercased but a fingerprint is not, so a fingerprint with an upper-case letter is
  never found by its own text (`Filter.UpperCaseFingerprintIsMissed`, `Filter.RowMatchesOwnFields`).
- A Connection line that is not text is skipped, so combining lines, as section 5.3 of RFC 9110 allows, changes
  the answer exactly when a binary line stands next to one that lists the token
  (`Upgrade.BinaryLineHidesUpgrade`, `Upgrade.CombiningLinesKeepsUpgrade`).
- Reading the clock twice per tick loses the lag between the reads; the lower bound on the session timer carries
  that lag explicitly (`SessionTimer.TimerCountsAtLeastHalf`). The strict bound holds with one read per tick
  (`SessionTimer.SingleReadBound`) and fails with two (`SessionTimer.SecondReadBreaksBound`).

## Model

| member | source | states |
|---|---|---|
| Tracker.ConnectionTracker.ProcessPacket | crates/apppw-capture/src/lib.rs:215-271 | takes one turn of the run with this packet: the log grows by exactly the reported events, the map and next id are those of the run |
| Tracker.ConnectionTracker.AbsorbPacket | crates/apppw-capture/src/lib.rs:227-269 | opens or refreshes the packet's connection, reports that one snapshot, and on FIN/RST removes and closes it in the same call |
| Tracker.ConnectionTracker.CloseInactive | crates/apppw-capture/src/lib.rs:273-291 | takes one turn that only expires, so the run stays the run of its inputs |
| Tracker.ConnectionTracker.RemoveExpired | crates/apppw-capture/src/lib.rs:274-290 | whatever order the map yields, every idle key is removed and closed exactly once and no other key is touched |
| Tracker.ReplyHasSameKey | crates/apppw-capture/src/lib.rs:295-319 | a packet and its reply are filed under one key with the packet's protocol, whose local end is the source and whose remote end the destination of the outbound one; a packet has no key exactly when it lacks a port |
| Tracker.FinOrResetCloses | crates/apppw-capture/src/lib.rs:223-268 | after a packet its connection is still tracked unless the packet is TCP with FIN or RST |
| Tracker.ThirtySecondsExpire | crates/apppw-capture/src/lib.rs:273-285 | a connection is dropped exactly when it was last seen 30 seconds ago or earlier |
| Tracker.TurnReportsInOrder | crates/apppw-capture/src/lib.rs:215-271 | a packet's turn reports the packet first and its own snapshot after all expiries; only the close of that connection follows it, exactly on FIN or RST |
| Core.SaturateIsLargestBelow | crates/apppw-capture/src/lib.rs:233-256 | a saturated number or sum is the largest 64-bit integer that does not exceed it |
| Sessions.TrackerRefinesLog | crates/apppw-capture/src/lib.rs:215-291 | for every run and clock a key is tracked exactly when its latest packet had no FIN or RST flag and every later turn is under 30 s after it; its counters are the saturated byte sums of its open session, its process the first known one, its first and last times those of the session |
| Sessions.SessionSnoc | crates/apppw-capture/src/lib.rs:217-269 | one more turn keeps, extends, restarts or ends the session defined by positions in the log |
| EventStream.LifeCycleGrammar | crates/apppw-capture/src/lib.rs:215-291 | each id's events read Opened, Updated*, at most one Closed; every later snapshot keeps the identity, loses no bytes and never changes a known process |
| EventStream.ReplayRebuildsTracker | crates/apppw-capture/src/lib.rs:215-291 | the event log is accepted and folding it rebuilds the tracker's connections by id; exactly the ids from 1 below the next id were opened, none twice |
| EventStream.TurnKeepsMirror | crates/apppw-capture/src/lib.rs:215-270 | one turn, even one that expires, reopens and FIN-closes the same key, keeps the replayed map equal to the tracker's |
| Conservation.BytesAreConserved | crates/apppw-capture/src/lib.rs:219-270 | the last snapshots of all connections ever opened sum to the sizes of all packets with both ports, less the saturation overflow; they balance exactly when no counter overflowed |
| Conservation.LedgerBalances | crates/apppw-capture/src/lib.rs:232-255 | the ledger of last snapshots covers exactly the ids used and agrees with every live connection |
| Conservation.SnapshotsCountSession | crates/apppw-capture/src/lib.rs:227-265 | a live connection was reported once per packet of its open session |
| Conservation.EveryPacketIsReported | crates/apppw-capture/src/lib.rs:216-221 | the captured packets in the log are the input packets, once each and in order, with or without ports |
| Correlator.TrafficCorrelator.ObserveConnection | crates/apppw-core/src/lib.rs:177-191 | updates one entry of the map from id to observation and keeps the stored ids unique |
| Correlator.TrafficCorrelator.CorrelateHttpRequest | crates/apppw-core/src/lib.rs:193-220 | scanning for a first and a second match gives the unique-match outcome |
| Correlator.ObserveRefinesMapUpdate | crates/apppw-core/src/lib.rs:177-191 | updating in place or pushing is a map update, wherever the vector keeps the entry |
| Correlator.StoreHoldsLatest | crates/apppw-core/src/lib.rs:177-191 | after any history the store maps exactly the observed ids to their latest observations |
| Correlator.CorrelationIsUniqueMatch | crates/apppw-core/src/lib.rs:201-219 | a lookup succeeds exactly when one and only one entry fits protocol, both ends, a known process and the inclusive symmetric window; then only connection and process of the request change, otherwise nothing does |
| Correlator.CorrelationIgnoresOrder | crates/apppw-core/src/lib.rs:201-219 | two stores with the same entries in any order give the same outcome |
| Correlator.ObservedConnectionIsFound | crates/apppw-core/src/lib.rs:177-220 | a request over a connection observed within the window is traced to it when nothing else explains it |
| Storage.Database.SaveProcess | crates/apppw-storage/src/lib.rs:27-44 | the upsert by pid as a step on the tables |
| Storage.Database.SaveConnection | crates/apppw-storage/src/lib.rs:46-86 | the process upsert followed by the conversions and the connection upsert, with its outcome |
| Storage.Database.SaveHttpRequest | crates/apppw-storage/src/lib.rs:88-116 | conversions, then the foreign key, then the upsert, with its outcome |
| Storage.ConnectionSaveIsAllOrNothing | crates/apppw-storage/src/lib.rs:46-86 | a connection call succeeds exactly when id, clock and both counters fit; a failed one changes no connection and no request, but still saves the process; it blames the clock exactly when the id fits and the time is before the epoch |
| Storage.RequestSaveIsAllOrNothing | crates/apppw-storage/src/lib.rs:88-116 | a request call succeeds exactly when id, start, duration and connection id fit and the named connection, if any, has a row; a failed one changes nothing, and each error has its exact condition |
| Storage.RowIdsAreConsecutive | crates/apppw-storage/src/lib.rs:27-44 | a known process keeps its row id; a new one gets 1 or the one after the largest in use |
| Storage.SaveKeepsIntegrity | crates/apppw-storage/src/lib.rs:118-152 | no call breaks a key or foreign key, loses a row, or changes a row id or a first-insert time |
| Storage.HistoryKeepsIntegrity | crates/apppw-storage/src/lib.rs:27-152 | the same between any two moments of any history of calls |
| Storage.RowCounts | crates/apppw-storage/src/lib.rs:27-116 | row counts equal the numbers of distinct keys found initially or saved successfully |
| Storage.RowsAreSavedKeys | crates/apppw-storage/src/lib.rs:27-116 | the keys present are exactly those; a process is saved even by a connection call that fails |
| Storage.ConnectionKeepsFirstInsert | crates/apppw-storage/src/lib.rs:54-80 | a connection's start time is the clock of the call that inserted it, for ever |
| Storage.RequestKeepsFirstInsert | crates/apppw-storage/src/lib.rs:90-110 | a request's start time is the one of the call that inserted it, for ever |
| Storage.ConnectionRowIsLatest | crates/apppw-storage/src/lib.rs:54-84 | a connection row shows the last snapshot saved successfully and still refers to the row of its process |
| Storage.RequestRowIsLatest | crates/apppw-storage/src/lib.rs:90-114 | a request row shows the last request saved successfully under its id |
| Storage.ProcessRowIsLatest | crates/apppw-storage/src/lib.rs:27-44 | a process row shows the name and path last saved for its pid |
| Runtime.RuntimeWorker.HandleNetworkEvent | crates/apppw-ui/src/runtime.rs:276-302 | appends the event to the worker's run, whatever the clock reads |
| Runtime.RuntimeWorker.HandleSnapshot | crates/apppw-ui/src/runtime.rs:285-296 | counts, observes, saves and shows one snapshot |
| Runtime.RuntimeWorker.HandleProxyEvent | crates/apppw-ui/src/runtime.rs:304-338 | appends the proxy event to the run: correlated, or with the resolver's answer for client and proxy address over TCP; saved and shown |
| Runtime.RuntimeWorker.RunOnce | crates/apppw-ui/src/runtime.rs:187-224 | one pass appends the tracker events of the packet's turn, one each and in order, and after them the waiting proxy events; the packet is tracked with the resolver's answer at its endpoints |
| Runtime.ResolverAgreesWithTracker | crates/apppw-ui/src/runtime.rs:340-358 | the process resolver is asked about exactly the endpoints under which the tracker files the packet |
| Runtime.TrackedProcessIsAnswer | crates/apppw-ui/src/runtime.rs:340-358 | a tracked packet carries the resolver's answer for the ends and the protocol of its key, and no process if it has no key |
| PipelineLaws.CountsFollowEvents | crates/apppw-ui/src/runtime.rs:283-301 | for every accepted event log there is one count per live id, the saturated number of its snapshots |
| PipelineLaws.PacketCountsMatchSessions | crates/apppw-ui/src/runtime.rs:283-301 | after a handled tracker run the counted ids are the live ones and each count is the saturated number of packets in the open session |
| PipelineLaws.WorkerHoldsReports | crates/apppw-ui/src/runtime.rs:285-291 | the correlator knows exactly the reported connections; the table holds exactly those with at least one storable report, and the rows found on disk |
| PipelineLaws.AnnotationIsExact | crates/apppw-ui/src/runtime.rs:313-329 | a request gets the connection and process of its one explanation, and otherwise only the resolver's process |
| PipelineLaws.ForeignKeyFailsExactly | crates/apppw-ui/src/runtime.rs:313-332 | a request names only a connection reported before, and breaks the foreign key exactly when every report of it so far was rejected and no older row exists |
| PipelineLaws.TrafficNeverBreaksForeignKey | crates/apppw-ui/src/runtime.rs:276-338 | with ids and packet sizes in range and a clock after the epoch every connection that a request is correlated with has a row, so no request breaks its foreign key, even when later byte counts no longer fit |
| PipelineLaws.CorrelatorFollowsInputs | crates/apppw-ui/src/runtime.rs:285-321 | the correlator is the fold of the observations made, with or without a database, so the laws of observation histories hold for every run |
| PipelineLaws.CorrelatorHoldsLastReports | crates/apppw-ui/src/runtime.rs:285-291 | after any run the correlator knows exactly the reported connections, each as its last report gave it and with the clock of that report |
| Tracing.TraceIsUniqueExplanation | crates/apppw-core/src/lib.rs:193-220 | a request is traced to a connection exactly when, of all connections ever reported, that one alone was last reported under the request's TCP key, with a known process and within two seconds on either side |
| Tracing.LiveConnectionIsTraced | crates/apppw-core/src/lib.rs:193-220 | in any accepted log a request over a live connection is traced to it exactly when its process is known, its last report is recent, and no other connection explains the request as well |
| Tracing.OnlyClosedConnectionsInterfere | crates/apppw-ui/src/runtime.rs:276-321 | after a run of the tracker only a closed connection of the same key, reported recently with a known process, can keep a request from its live connection |
| Tracing.WithoutLiveConnection | crates/apppw-ui/src/runtime.rs:298-321 | once the tracker has closed the connection, a request over its ends can only be traced to a closed one |
| PipelineLaws.ShownConnectionIsStored | crates/apppw-ui/src/runtime.rs:393-434 | the screen row and the table row made from one snapshot agree on bytes, protocol, both addresses, host and process |
| PipelineLaws.ShownRequestIsStored | crates/apppw-ui/src/runtime.rs:436-464 | the screen row and the table row made from one request agree, the latter under the untagged id |
| TableLaws.WorkerIsSaveHistory | crates/apppw-ui/src/runtime.rs:276-338 | the tables after any run are those of the calls made for its reports and annotated requests, in order, so every law of call histories holds for the worker |
| TableLaws.WorkerKeepsIntegrity | crates/apppw-ui/src/runtime.rs:276-338 | whatever is handled, every row survives and every foreign key keeps pointing at a row |
| TableLaws.ConnectionRowIsLastReport | crates/apppw-ui/src/runtime.rs:276-302 | after any run a connection's row shows the last of its reports that fitted the database, under the start and end time of the row found on disk, or without one under the clock of the first report stored |
| TableLaws.RequestRowIsLastTaken | crates/apppw-ui/src/runtime.rs:304-338 | after any run a request's row shows the last request under its id that the database took, as annotated, under the start time found on disk, or without a row under that of the first request taken |
| TableLaws.ConnectionStartsAtFirstReport | crates/apppw-storage/src/lib.rs:54-80 | a connection's row starts at the first report stored in this run exactly when no row was found under its id, or the one found happens to start then; a row found keeps its start and end time |
| TableLaws.RequestStartsAtFirstTaken | crates/apppw-storage/src/lib.rs:90-110 | a request's row starts with the first request taken in this run exactly when no row was found under its id, or the one found happens to start then |
| TableLaws.ReportsShareKey | crates/apppw-capture/src/lib.rs:227-255 | in every accepted event log all reports of one id have the same protocol and ends |
| TableLaws.CorrelatedWasReported | crates/apppw-ui/src/runtime.rs:313-319 | a request is only correlated with a connection reported before it, over TCP, between its own client and proxy address |
| TableLaws.StoredRequestPointsHome | crates/apppw-ui/src/runtime.rs:276-338 | the stored row of a correlated request refers to a connection row with the request's own ends exactly when a report of that connection was stored in this run or the row found on disk happens to have them; always when no such row was found |
| TableLaws.OldRequestFollowsNewReports | crates/apppw-storage/src/lib.rs:54-84 | a request row found on disk and not stored again stays, but the connection row it refers to follows the reports of this run: it has the old ends exactly when nothing was stored for it and it had them, or the reports have them |
| FailingCases.ReportBeforeEpochBreaksForeignKey | crates/apppw-ui/src/runtime.rs:276-338 | the failing case: one packet opens a connection whose only report is saved on a clock before the epoch; the request traced to it breaks the foreign key |
| FailingCases.ClosedConnectionIsTraced | crates/apppw-ui/src/runtime.rs:276-321 | the failing case: one packet with FIN opens and closes a connection, nothing is live, and a request is still traced to it |
| FailingCases.ReopenedConnectionIsMissed | crates/apppw-core/src/lib.rs:201-215 | the failing case: a connection closed and opened again within the window is live, and a request over it is traced to nothing |
| FailingCases.NextLaunchMisdirectsRequest | crates/apppw-storage/src/lib.rs:54-110 | the failing case: on one database file, a second launch that reuses the id leaves an old request referring to a connection between other ends |
| FailingCases.NextLaunchKeepsOldStart | crates/apppw-storage/src/lib.rs:54-80 | the failing case: the row then shows the new connection under the start time of the old one |
| FailingCases.NextLaunchKeepsOldRequestStart | crates/apppw-storage/src/lib.rs:90-110 | the failing case: a request under a reused id replaces the old one and keeps its start time |
| Replication.QueueMirrorsTracker | crates/apppw-ui/src/runtime.rs:292-338 | the replayed queue holds under untagged ids the live connections with their counts and under tagged ids the last request of each id, annotated from what was observed until then, so closing a connection never removes a request |
| Replication.TagSeparatesIds | crates/apppw-ui/src/runtime.rs:436-439 | for ids below 2^63 the tag is injective and disjoint from connection ids |
| Domain.ConnectionRowSays | crates/apppw-ui/src/runtime.rs:393-434 | a connection's row field by field: id, packet count, bytes, kind and method by protocol, process, host, both addresses, and no request fields |
| Domain.RequestRowSays | crates/apppw-ui/src/runtime.rs:436-464 | a request's row field by field: bit 63 set on its id, process, method, host, path, status, kind by scheme, body sizes, duration, both ends, headers, bodies and fingerprint |
| Replication.EndToEnd | crates/apppw-ui/src/adapters/egui_ui.rs:80-107 | recording, without Clear and with the queue drained, the untagged rows are one for one the rows of the tracker's live connections, distinct keys having distinct rows; each shows the count, the byte sums, the process and the ends of its session; there is one tagged row per request id handled, and up to its flag it is the last request of that id as annotated |
| Replication.ScreenShowsOpenSessions | crates/apppw-ui/src/runtime.rs:276-302 | then every session open in the packet log has a row that shows its packet count, byte sums, first known process and ends, and every untagged row shows an open session |
| Replication.TablesShowLiveConnections | crates/apppw-ui/src/runtime.rs:276-302 | after any run of the tracker, with ids and clock in range, the table row of every tracked connection shows what the tracker holds exactly when its counters fit the database |
| Replication.ScreenShowsOnlyLiveConnections | crates/apppw-ui/src/adapters/egui_ui.rs:86-98 | at any moment, whatever the user did, an untagged row belongs to a connection live after the received part of the event stream |
| ScreenLaws.NoGhostRows | crates/apppw-ui/src/adapters/egui_ui.rs:86-98 | under any interleaving of messages, toggles, Clear, selections and ticks the row ids are distinct and every row is open |
| ScreenLaws.RecordingShowsAll | crates/apppw-ui/src/adapters/egui_ui.rs:86-98 | while recording and without Clear the rows are exactly the open ones, each with its latest content |
| ScreenLaws.RowsAreLastRecorded | crates/apppw-ui/src/adapters/egui_ui.rs:86-98 | under any interleaving with toggles, Clear and everything else, the rows are exactly the last snapshots received while recording, since the last Clear and not closed since, each with the flag it deserved then |
| ScreenLaws.FlagsFollowRecordedRows | crates/apppw-ui/src/adapters/egui_ui.rs:86-98 | baselines depend on the recorded rows alone, and each row on screen keeps the flag it got when recorded |
| ScreenLaws.OrderIsKept | crates/apppw-ui/src/adapters/egui_ui.rs:86-94 | a replaced row keeps its place and a new one comes last |
| ScreenLaws.WithoutOnly | crates/apppw-ui/src/adapters/egui_ui.rs:95-98 | closing takes the one row out and leaves the others in order |
| ScreenLaws.LastErrorIsShown | crates/apppw-ui/src/adapters/egui_ui.rs:99-102 | after any actions the screen shows the last error message; warnings never replace it |
| ScreenLaws.SettingsFollowTheirActions | crates/apppw-ui/src/adapters/egui_ui.rs:109-159 | every setting follows the one action made for it; only a replaced list changes processes and icons, and a listed process has an icon exactly when it had one or is listed with one |
| ScreenLaws.SelectionFollowsActions | crates/apppw-ui/src/adapters/egui_ui.rs:228-553 | Clear, showing all processes and the two switches drop the selected event; apart from selecting and replacing processes nothing else touches the selection |
| ScreenLaws.OnlyTicksMoveTimer | crates/apppw-ui/src/adapters/egui_ui.rs:1034-1036 | nothing but ticks moves the timer, so its bounds hold on screen |
| ScreenLaws.SelectionSurvivesReplacement | crates/apppw-ui/src/adapters/egui_ui.rs:114-139 | a replaced process list keeps a listed selection; otherwise, on the Applications tab, the selection moves to the first application of the same name in any case, and it is dropped with its event when there is none |
| ScreenLaws.SelectedEventIsEarliestRow | crates/apppw-ui/src/adapters/egui_ui.rs:247-254 | selecting a process selects an event exactly when the process has a row, and then the earliest such row, which passes the process test of either tab |
| Frames.FramesAreTransparent | crates/apppw-ui/src/adapters/egui_ui.rs:80-107 | however arrivals and frames interleave, the screen is one in-order fold over what was received and the channel holds the rest |
| Frames.DrainingTakesCeilingFrames | crates/apppw-ui/src/adapters/egui_ui.rs:80-107 | draining n messages takes the ceiling of n / 1024 frames and yields the fold; a frame that leaves messages requests a repaint |
| Frames.FrameIsActions | crates/apppw-ui/src/adapters/egui_ui.rs:80-107 | a frame equals receiving its messages one at a time, so the laws over actions apply to it |
| Replica.AppWatch.ReceiveRuntimeEvents | crates/apppw-ui/src/adapters/egui_ui.rs:80-107 | one frame takes the first 1024 messages, or all, in order, and requests a repaint exactly at the limit |
| Replica.AppWatch.Receive | crates/apppw-ui/src/adapters/egui_ui.rs:85-102 | the effect of one message on the whole screen |
| Replica.AppWatch.ReplaceProcesses | crates/apppw-ui/src/adapters/egui_ui.rs:109-159 | the new list, selection and icons; a listed process keeps its icon or gets the one offered |
| Replica.AppWatch.Clear | crates/apppw-ui/src/adapters/egui_ui.rs:349-353 | drops rows and selected event and nothing else |
| Replica.AppWatch.ToggleRecording | crates/apppw-ui/src/adapters/egui_ui.rs:364-366 | flips recording and nothing else |
| Replica.AppWatch.SelectProcess | crates/apppw-ui/src/adapters/egui_ui.rs:247-254 | selects the process and the id of its earliest row, or no event when it has no row; nothing else changes |
| Replica.AppState.VisibleEventIndices | crates/apppw-ui/src/application.rs:87-119 | the rows to draw, in order, are exactly those that match a valid filter, belong to the selection, and are hidden by neither switch, over the screen's own fields |
| Replica.AppState.ClassifyJa4 | crates/apppw-ui/src/application.rs:125-137 | one classification step on baselines and row |
| Replica.AppState.Tick | crates/apppw-ui/src/application.rs:139-148 | one timer step with its two clock reads |
| Ja4Baselines.BaselineIsFirstSeen | crates/apppw-ui/src/application.rs:132-135 | the baselines are exactly the first fingerprints of the history by lowercased process name |
| Ja4Baselines.OutlierDiffersFromFirst | crates/apppw-ui/src/application.rs:125-137 | a row is flagged exactly when it has a fingerprint, its process name is not "unknown process" in any case, and it differs from the first fingerprint of that name |
| SessionTimer.TimerNeverOvercounts | crates/apppw-ui/src/application.rs:139-148 | the seconds shown never exceed the time in intervals ended by a recording tick |
| SessionTimer.WholeSecondsElapsed | crates/apppw-ui/src/application.rs:141 | the seconds counted are those fully elapsed, up to saturation, and none when the clock went back |
| SessionTimer.TimerCountsAtLeastHalf | crates/apppw-ui/src/application.rs:139-148 | over uninterrupted recording the elapsed time stays strictly below twice the seconds shown plus one, up to the lag between clock reads |
| SessionTimer.SingleReadBound | crates/apppw-ui/src/application.rs:139-148 | with one clock read per tick the bound holds without the lag |
| SessionTimer.SecondReadBreaksBound | crates/apppw-ui/src/application.rs:141-144 | the failing case: with two clock reads per tick one second is shown after a measured 3.9 s |
| Filter.JoinedFiltersConjoin | crates/apppw-ui/src/application.rs:161-210 | joining two filters by a space gives the first fault of either and matches exactly the rows both match |
| Filter.JoinedFiltersIntersect | crates/apppw-ui/src/application.rs:87-101 | the visible rows of the joined filter are the intersection |
| Filter.VisibleIsExact | crates/apppw-ui/src/application.rs:87-101 | visible indices are strictly increasing and exactly those of the rows that match a valid filter, belong to the selection (same pid, or on the Applications tab the name in any case of the process listed first under it), are decoded HTTPS if only that is wanted, and are no outliers if those are hidden |
| Filter.ValidatedKeysAreKnown | crates/apppw-ui/src/application.rs:161-181 | a filter is valid exactly when every key is, in any case, one of the eight and every status and port parses, so matching never reaches the unknown-key branch |
| Filter.FaultIsNamed | crates/apppw-ui/src/application.rs:161-181 | the verdict names an unknown key as typed, or the numeric key and the value that is no number |
| Filter.BlankFilterMatchesAll | crates/apppw-ui/src/application.rs:184-186 | a filter of nothing but whitespace is valid and matches every row |
| Filter.FreeTextIsExact | crates/apppw-ui/src/application.rs:188-192 | a word without a colon matches exactly the rows one of whose nine fields contains it in any case |
| Filter.PartOfFieldFinds | crates/apppw-ui/src/application.rs:193-201 | any part of a host or process, in any case, and any lower-case part of an address finds the row by its key |
| Text.PartsAreFound | crates/apppw-ui/src/application.rs:191-206 | a text begins with, ends with or contains another whenever it is that text with more before or after |
| Text.FoundIsPart | crates/apppw-ui/src/application.rs:191-206 | and only then |
| Text.EqualsLetterByLetter | crates/apppw-ui/src/application.rs:112 | two texts are equal ignoring case exactly when each pair of characters is the same letter of the alphabet or the same character |
| Text.LowerFoldsLetters | crates/apppw-ui/src/application.rs:189 | lowering replaces the 26 upper-case letters by their lower-case ones and nothing else |
| Text.SplitJoined | crates/apppw-ui/src/application.rs:188 | splitting at whitespace turns any joining whitespace character into concatenation |
| Text.ParsedTexts | crates/apppw-ui/src/application.rs:176 | a number parses exactly when it is the canonical text behind zeros and at most one plus sign |
| Filter.FilterIgnoresCase | crates/apppw-ui/src/application.rs:188-193 | filters that differ only in case validate and match alike |
| Filter.PortFilterIsExact | crates/apppw-ui/src/application.rs:202-205 | a valid port filter matches exactly the canonical text of the local or remote port, even when IPv6 text contains the digits, and parses to it |
| Filter.StatusFilterIsExact | crates/apppw-ui/src/application.rs:197-199 | a valid status filter matches exactly the canonical text of the status and parses to it |
| Filter.SocketTextIsInjective | crates/apppw-ui/src/runtime.rs:425-426 | the address text on a row names one socket address |
| Filter.KeyFilterIsExact | crates/apppw-ui/src/application.rs:188-207 | a filter of one known key and a value without whitespace matches exactly when the key's test holds of the lowercased value, and is valid exactly when a numeric key has a number |
| Filter.TextFilterIsExact | crates/apppw-ui/src/application.rs:193-206 | each text key is valid with any value and compares the lowercased value with its own field, which is itself lowercased for process, host, method and protocol but not for ip and ja4 |
| Filter.RowMatchesOwnFields | crates/apppw-ui/src/application.rs:189-206 | a row is found by its own process, host and method, by its own address if that has no upper-case letter, and by its own fingerprint exactly when that has none |
| Filter.UpperCaseFingerprintIsMissed | crates/apppw-ui/src/application.rs:189-206 | the failing case: the valid filter that spells out a fingerprint with the protocol characters H2 misses the row that has it |
| Filter.PortIsFoundByCanonicalText | crates/apppw-ui/src/application.rs:172-205 | a row with the port that a valid value parses to is shown exactly when the value is that number's canonical text |
| Filter.StatusIsFoundByCanonicalText | crates/apppw-ui/src/application.rs:172-199 | the same for the status |
| Filter.PlusSignMissesPort | crates/apppw-ui/src/application.rs:172-205 | the failing case: port:+443 is valid and misses a row of port 443 |
| Filter.LeadingZeroMissesStatus | crates/apppw-ui/src/application.rs:172-199 | the failing case: status:0200 is valid and misses a row of status 200 |
| Upgrade.CombiningLinesKeepsUpgrade | crates/apppw-proxy/src/lib.rs:479-488 | the test on the Connection lines and on the lines combined by commas and optional whitespace agree exactly when there is no Upgrade header, all lines are text, or no text line lists the token |
| Upgrade.UpgradeRequestIsSpelled | crates/apppw-proxy/src/lib.rs:479-488 | a request asks for an upgrade exactly when it has the header and some Connection line of text lists the token |
| Upgrade.UpgradeIsListedExactly | crates/apppw-proxy/src/lib.rs:486-487 | a line lists the token exactly when, between two commas or its ends, it holds the word upgrade in some mixture of cases and otherwise only whitespace |
| Upgrade.DecodedReadsAsBytes | crates/apppw-proxy/src/lib.rs:485 | a line decodes exactly when its bytes are tabs and the characters from space to tilde, and then reads as they do |
| Text.TrimRemovesSpaces | crates/apppw-proxy/src/lib.rs:487 | trimming removes the whitespace around a text and nothing of the text |
| Upgrade.BinaryLineHidesUpgrade | crates/apppw-proxy/src/lib.rs:479-488 | the failing case: a concrete pair of lines on which they disagree |

## Left out

- Capture thread, driver repair and packet parsing: packets are inputs; raw bytes and payload sizes are dropped.
- Windows process lookup and launching: each packet and request carries an arbitrary resolved process.
- Proxy networking, TLS, certificates, fingerprint computation and header redaction: proxy events are inputs.
- SQL text, schema migration and I/O errors: only the three tables, their keys, upserts and conversions are modelled; the largest row id is assumed never to reach the top of SQLite's range.
- Drawing, toasts, byte formatting, statistics, detail tabs and confirmation dialogs.
- Threads and channels as operating-system objects: channels are sequences, and a frame receives what was waiting when it began.
- Unicode case folding and whitespace beyond ASCII.
- Behaviour once ids reach the top of their range: named as a premise where it matters.
- Sessions.TrackerRefinesLog: does not say which id a connection has; ids are covered by EventStream.ReplayRebuildsTracker.
- Replication.TagSeparatesIds: setting bit 63 is modelled by its arithmetic meaning on 64-bit ids, not on bit-vectors.
