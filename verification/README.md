# Verified model of the mail-log viewer's store, tail, forwarder and queries

The program reads Postfix and rspamd logs and turns them into one record per message.
Records live in an indexed in-memory store that is mirrored in a database, and a server
can ship them to a central receiver. This project models those parts on abstract log
lines and records, and proves what the design relies on:

- `Records`, `Text`, `StableSort`: lines, records, outcome rules, and a stable sort with
  the fact that a stable sorted arrangement is unique.
- `Timeline`: raw-line timelines and the two record merges (delivery leg, same queue id).
- `Outcomes`: what classification says, on the characters of a record's fields.
- `Parser`, `ParsedFields`, `LiveTail`, `SplitMerge`: the batch grouping loop, what its
  records show, the live watcher, exactly when the two agree, and when a message that
  reaches the store in several flushes ends up as one parse would give it.
- `StoreSpec`, `Store`: the store as a transition function on a value (`Core`) and as a
  class whose methods are proved against it, with the database as a last-write-wins map
  and the sink as the sequence of snapshots handed over.
- `Coherence`, `Links`, `Refinement`, `Restart`, `Reload`, `Lookups`, `Retention`: what
  every run keeps, the plain maps the indexes refine, reloading from the database in the
  order it lists its rows, what a restart changes for later events, and purging.
- `Ingest`, `Forwarder`, `Replication`, `Checkpoint`, `Agreement`, `LegOrder`, `Pipeline`:
  last-writer-wins ingestion, the at-least-once send loop, the tailed log, store, link and
  receiver as one system with every interleaving, what a saved checkpoint covers, and the
  end-to-end results from the store, from the mail order and from the log lines.
- `Rspamd`, `VerdictOrder`, `VerdictMerge`: scanner verdicts that arrive before, after or
  between the records of their message.
- `Direction`, `Queries`, `Statistics`, `Stamps`: three implementations of a message's
  direction and what each answer means, search, statistics, and the year of a syslog stamp.

A log line is a datatype: its kind (connect, TLS, filter session, reject without queue id,
queue id, other), its timestamp, and what each regular expression finds on it. A key is
the pair of origin and queue id. Times are numbers, 0 being Go's zero time.

## Where the code and its comments differ

The model follows the code. Each of these has a concrete input on which it shows and the
exact condition under which it does not:

- store.go:793-810 re-indexes queue ids but not delivery links, so a stale link can fold a
  later leg into an unrelated row (`Retention.StaleLinkAfterPurge`). A link survives exactly
  when no row up to its own is dropped (`Retention.PurgeKeepsLink`, `PurgeKeepsLinks`,
  `PurgedRunLinked`). And every purge, even one that drops nothing, forgets the onward ids'
  aliases: afterwards an id leads to the last kept row of its own key or nowhere
  (`Retention.PurgedLookup`, `PurgeForgetsAliases`).
- store.go:794 and db.go:250 each read the clock. A row whose age falls between the two
  cutoffs stays in memory and leaves the database (`Retention.RowBetweenCutoffs`); the mirror
  survives exactly when there is none (`Retention.PurgeMirrors`).
- A restart is not transparent in two ways. store.go:237-244 resolves an onward id at loading
  that store.go:408-421 leaves unresolved until its leg arrives, so a scanner verdict for that
  id waits in the running store and is applied in the reloaded one
  (`Lookups.VerdictForOnwardId`). And waiting verdicts are not stored, so the record one of
  them was for goes without it (`Lookups.WaitingVerdictIsLost`). The later events that show
  either are exactly those `Lookups.RestartIsTransparent` excludes.
- store.go:411-421 can subsume a primary when two of them name one onward id, and a reload
  then loses the link (`Restart.TwoPrimariesLoseOne`). A registration does so exactly when
  the onward id is an alias of another listed row (`Links.HidesOtherIff`), a record breaks
  links exactly when it takes an onward id away (`Links.AddOneLinkageIff`), and a reload
  keeps the links in every row order exactly when they are true (`Reload.ReloadsSameIff`;
  for the database's own order, `Reload.ReloadsSameNewestFirstIff`).
- store.go:323-325 skips subsumed snapshots, so a leg that was shipped while listed stays
  listed on the receiver (`Agreement.LegFirstStaysListed`). The receiver agrees with the
  forwarder if and only if no row was subsumed (`Agreement.ReplicationAgrees`), that is, if
  and only if no record came before the primary that names it
  (`LegOrder.ReplicationAgreesIffOrdered`). A restart of the receiver drops such a leg
  (`Reload.LegGoneAfterRestart`, `Reload.ReceiverRestartIff`).
- forward.go:115-116 says every record up to the checkpoint is in the batch. Over snapshots
  it is (`Forwarder.ActsConserve`). Over log lines a checkpoint passes any group still
  pending, however many lines back (`Checkpoint.CheckpointPassesPending`), and a line of a
  queue id or a rejection that watcher.go:96-97 has counted and not processed
  (`Checkpoint.CheckpointRunsAhead`, `CheckpointPassesRejection`); it holds exactly when there
  was none of these (`Checkpoint.CheckpointCoversIff`, `SavedCheckpointIff`). A scanner verdict
  that is waiting is in no snapshot either (`Checkpoint.CheckpointPassesVerdict`).
- store.go:541-550 promises that scanner verdicts survive a merge. rspamd's greylisting is
  stored as "deferred" and is re-derived (`VerdictOrder.SecondRecordBreaksOrder`), and a
  verdict arriving with the merged record is ignored (`Timeline.IncomingVerdictIgnored`).
  `VerdictMerge` has the exact conditions, for the disposition, the scanner's line and the
  whole record, and in the store.
- watcher.go:102-171 hands a group over at its first "removed" line. Lines of that queue id
  that follow start a new group (`LiveTail.LineAfterRemoval`), so the groups equal the batch
  parser's if and only if there are none (`LiveTail.GroupsAgreeIffQuiet`); filter lines that
  follow are missed (`LiveTail.FilterLineAfterRemoval`, `LiveTail.RecordAgreesIffSettled`).
- A merge of two flushes fills a blank field from the second, while one parse keeps a blank
  first match (`SplitMerge.BlankMatchIsFilled`); and an outcome outside the list in
  store.go:557-563 is kept although a later status is known
  (`SplitMerge.ClosedOutcomeIsKept`). `SplitMerge.MergePieces` has the exact condition.

## Model

| member | source | states |
|---|---|---|
| Coherence.RunCoherent | store.go:253-301 | In every run of mail batches and scanner verdicts, each listed row is what its own key resolves to in both indexes, indices are in range, every alias is an expected onward id of the same server, and rows sharing a key are all subsumed but the last |
| Coherence.ListedKeysUnique | store.go:253-301 | Two listed rows never share an origin and queue id |
| Coherence.RegisterCoherent | store.go:411-421 | Announcing an onward id, with or without folding a leg that came first, keeps both indexes coherent |
| Coherence.AddOneCoherent | store.go:257-296 | Each of the three ways a record enters the store (leg, known id, new row) keeps the indexes coherent |
| Coherence.ApplyVerdictCoherent | store.go:365-382 | A scanner verdict, matched or waiting, keeps the indexes coherent |
| Links.RunLinked | store.go:253-301 | With one primary per onward id, every run keeps one row per key, every row's link held by that row, every link leading to the row that names it, and every alias backed by a link |
| Links.RegisterLinkage | store.go:411-421 | Registering a row's onward id restores the one link that was missing and breaks none |
| Links.HidesOtherIff | store.go:411-421 | Registering hides a listed row that is not the expected leg exactly when the onward id is linked and is an alias of another listed row |
| Links.AddOneLinkageIff | store.go:257-296 | For any next record, links and rows still match exactly when it names no onward id, is a leg itself, its row names one already, or nobody is linked under the id it names |
| Links.AddLinkageIff | store.go:253-301 | Over any batch, with any number of primaries per onward id, links and rows match all along exactly when no record takes an onward id away |
| Links.RunFromWelcomed | store.go:253-301 | They match after every run of mail and verdicts in which none does |
| Refinement.AddOneMaps | store.go:257-296 | Adding a record to the indexed store does to the maps of listed records, links and waiting verdicts what a definition without indexes does, and flushes the same snapshots |
| Refinement.SameMapsSameFuture | store.go:253-301 | Stores with equal maps, whatever their row order and indexes, list, link and flush the same for any later mail; later verdicts are the subject of Lookups.EventTwins |
| Refinement.ReloadKeepsMaps | store.go:216-251 | Loading the database of any run gives a store with the same listed records and links as the one that wrote it, and with all its maps exactly when no verdict was waiting |
| Lookups.EventTwins | store.go:253-406 | A running and a reloaded store flush the same for one more event exactly when it is mail each record of which is a leg, was awaited by no lost verdict, or has a row the lost verdict leaves as it is; or a verdict for an id that resolves, or that was not linked at the restart; and then they stay alike |
| Lookups.RestartIsTransparent | store.go:216-406 | For any later list of mail and verdicts, after any run, waiting verdicts or not, the reloaded store lists, links and flushes all along what the running one would have, exactly when every one of them is such an event |
| Lookups.VerdictForOnwardId | store.go:365-382 | A concrete run after which a verdict waits in the running store and turns the primary into spam in the reloaded one |
| Lookups.WaitingVerdictIsLost | store.go:400-406 | A concrete run after which a record is spam without a restart and sent after one |
| Lookups.LeavesAsItIs | rspamd.go:74-94 | A verdict leaves a row as it is exactly when everything it says is there already |
| Restart.RunFromMirrors | store.go:202-214 | However a mirrored run goes on, the database's last row for each key is the row in memory, and it has no other keys |
| Restart.LoadKeepsAll | store.go:222-248 | Loading clean rows lists exactly those not subsumed, each under its own and its onward id, with nothing else in either index |
| Restart.RestartRoundTrip | store.go:216-251 | Reloading the rows of any run in which no onward id is taken away, in any order, gives the same key-to-record map and the same delivery links; an id resolves to what it resolved to, or else to the primary that expects it, so it resolves alike exactly when a linked id resolved already |
| Reload.ReloadsSameInOrderIff | db.go:97-134 | A mirrored, coherent store is reloaded with the same records and links, for all rows in a given order up to ties, exactly when every link to a listed row is its own, every listed row naming an onward id is the linked one or comes strictly before it, and none names another listed row's id |
| Reload.ReloadsSameNewestFirstIff | db.go:103 | The same for the order of the database's listing, newest first and rows without a time before all |
| Reload.ReloadsSameIff | store.go:216-251 | In whatever order the rows come back, exactly when every listed row holds its link and every link to a listed row is its own |
| Reload.LoadHolds | store.go:222-248 | Rows none of which names a later one's id are all listed, and each onward id is linked to the last row that names it |
| Reload.ReceiverRestartIff | store.go:309-346 | A receiver lists the same records after a restart, in every allowed row order, exactly when no listed record's last snapshot is subsumed and no row names the id of one that may come after it |
| Reload.LegGoneAfterRestart | store.go:323-325 | A concrete batch whose leg is listed by the receiver and gone after its restart |
| Restart.TwoPrimariesLoseOne | store.go:411-421 | A concrete run in which a second primary for an onward id subsumes the first, and the reloaded store has lost the link |
| Ingest.IngestView | store.go:309-346 | From any store, ingesting a batch overrides the listed records of that origin with the batch's last unsubsumed snapshots and leaves the rest |
| Ingest.LatestIsLast | store.go:309-346 | The snapshot kept for a key is the last one of the batch that is not subsumed, with the sender's origin stamped on it |
| Ingest.LatestFrom | store.go:315-325 | Every key kept comes from an unsubsumed snapshot of the batch, under the sender's origin whatever the payload claimed |
| Ingest.OriginsCommute | store.go:309-346 | Batches of two different servers give the same listed records in either order |
| Ingest.IngestListsAll | store.go:327-338 | Ingestion keeps every unsubsumed row listed under its own key |
| Ingest.IngestConcat | store.go:309-346 | Ingesting two batches in turn equals ingesting them as one |
| Ingest.IngestTwice | store.go:309-346 | Ingesting a batch again right away leaves the whole state unchanged: rows, both indexes and flags |
| Ingest.ReplayAbsorbed | forward.go:133-138 | A batch that arrived without its acknowledgement, sent again in front of newer snapshots, leaves the state of one single delivery |
| Ingest.ReplayAbsorbedByDatabase | store.go:341-345 | Persisting a batch twice leaves the database as persisting it once |
| Forwarder.ActsConserve | forward.go:100-157 | In every reachable state acknowledged, in-flight and queued snapshots make up what was enqueued, in order; and all snapshots enqueued before the saved checkpoint's offset was read are acknowledged |
| Forwarder.ActConserves | forward.go:100-157 | Each atomic section (enqueue, read offset, drain, failed send, acknowledged send) conserves the snapshots and only extends what is acknowledged |
| Forwarder.RoundSends | forward.go:113-130 | From rest, a round sends exactly when snapshots are queued or a heartbeat is due, and what is in flight is the whole queue with the offset just read; nothing else changes |
| Forwarder.BackoffDoubles | forward.go:132-151 | After any actions, the waiting time is two to the number of sends that failed since the last acknowledgement, capped at 32 |
| Forwarder.CheckpointIsLastShipped | forward.go:150-155 | After any actions, the saved checkpoint is the offset of the last acknowledged batch that had snapshots |
| Forwarder.Forwarder.EnqueueRecords | forward.go:87-98 | Snapshots go behind those queued, and an empty batch changes nothing |
| Forwarder.Forwarder.NextBatch | forward.go:113-130 | It sends exactly when the queue was not empty or a heartbeat is due; the batch is the whole old queue with the offset read before it was taken, and the queue is empty |
| Forwarder.Forwarder.Requeue | forward.go:132-148 | A failed batch comes back in front of what arrived meanwhile, and the backoff doubles until 32 |
| Forwarder.Forwarder.Acknowledge | forward.go:150-155 | An acknowledged batch resets the backoff and saves the offset read before it was drained, unless it was a heartbeat |
| Replication.ExactlyOnce | forward.go:100-157 | For every interleaving of store updates, drains, losses, lost acknowledgements and other servers' batches, whenever nothing is queued or in flight the receiver lists for this server exactly the last listed snapshot of each key ever flushed |
| Replication.MovesSound | forward.go:100-157 | At every step, drained or not, the receiver lists the acknowledged snapshots plus what arrived without acknowledgement, and the store and the queue history are those of the same run |
| Checkpoint.CheckpointCoversIff | forward.go:115-117 | In every reachable state with a saved checkpoint, the records of all lines before it, groups and rejections, are among the snapshots enqueued when its offset was read exactly when at that moment no group was pending and no line that makes a record was counted but unprocessed; then they are acknowledged; and the checkpoint is at most one line ahead of what was processed |
| Checkpoint.SavedCheckpointIff | forward.go:150-155 | As a checkpoint is saved, the records of all lines before it are acknowledged exactly when all of them had been handed over as the batch was drained |
| Checkpoint.NonePendingIff | watcher.go:123-149 | No group is pending exactly when every queue-id line is followed by, or is, a removal of its id |
| Checkpoint.HandedRecordShowsLine | watcher.go:143-171 | The record handed over at that removal shows the line |
| Checkpoint.CheckpointPassesPending | forward.go:115-117 | For every number of lines, a schedule in which the saved checkpoint lies that far past a line whose group is pending and never shipped |
| Checkpoint.CheckpointRunsAhead | watcher.go:89-98 | A schedule in which the saved checkpoint counts a line that has not been processed |
| Checkpoint.CheckpointPassesRejection | watcher.go:89-124 | A schedule in which the saved checkpoint counts a rejection whose record was never enqueued |
| Checkpoint.CheckpointPassesVerdict | forward.go:159-168 | A schedule in which a checkpoint is saved while a scanner verdict waits that no snapshot shows |
| Checkpoint.ShippingLineShips | watcher.go:118-149 | Every removal and every rejection makes the store flush something |
| Agreement.ReplicationAgrees | store.go:253-346 | With the link drained, the receiver has a row for every row of the forwarding store, each listed one as it is with the origin stamped; and the two list the same if and only if no row was subsumed |
| Agreement.LegFirstStaysListed | store.go:323-325 | A concrete run in which a leg arrives before its primary and stays listed on the receiver |
| LegOrder.SubsumedIffLegFirst | store.go:411-421 | When legs name no further id and a message names one, a row ends up subsumed if and only if some record came before the first one naming its id |
| LegOrder.ReplicationAgreesIffOrdered | store.go:253-346 | So receiver and forwarder list the same if and only if no record came before the primary that names it |
| Pipeline.LogReachesReceiver | watcher.go:64-171 | When a log at rest, of plain mail, is tailed to its end and drained, then for every interleaving, loss and repetition the receiver has exactly the records the batch parser makes of the log, origin stamped |
| Pipeline.LinkedLogReachesReceiver | watcher.go:64-171 | With onward ids: the receiver has a row for every row of a store fed with the parser's records in the order in which their groups were removed, the listed ones as they are; and lists what that store lists exactly when in that order no record came before the primary that names it |
| Pipeline.StoreIsFedParsed | watcher.go:102-171 | Any log at rest, tailed to its end, gives the store exactly the batch parser's records |
| Agreement.LatestIsViewIffNoneSubsumed | store.go:309-325 | The last listed snapshots of a run are the store's listed records if and only if no row was subsumed |
| LiveTail.TailMatchesScan | watcher.go:102-171 | When no queue id returns after its removal, the watcher holds exactly the batch groups not yet removed with the same connect, TLS and verdict state, has handed over each removed group once with the batch lines, sent the same rejects, and built the batch record whenever its filter session was complete |
| LiveTail.GroupsAgreeIffQuiet | watcher.go:123-149 | Held and handed-over groups equal the batch parser's if and only if no line of a queue id follows its removal |
| LiveTail.RecordAgreesIffSettled | watcher.go:152-171 | Unless its filter session repeats a line literally, a handed-over record equals the batch record if and only if no line of that session follows the removal |
| LiveTail.LineAfterRemoval | watcher.go:143-149 | Two lines on which the watcher holds a second group and the batch parser one group of both |
| LiveTail.FilterLineAfterRemoval | watcher.go:152-171 | Two lines on which the batch record is blocked by the filter and the handed-over record shows no filter |
| LiveTail.FinalizedRecord | watcher.go:152-171 | Re-parsing one group and then correlating gives the record the batch parser builds in one go |
| LiveTail.PendingStandsAlone | watcher.go:123-149 | Every pending group is at most one connect and some TLS lines around lines of its own id, so it re-parses to itself |
| LiveTail.Watcher.ProcessLine | watcher.go:102-150 | The imperative watcher takes the specified step on every kind of line and stamps filter sessions |
| LiveTail.Watcher.FinalizeGroup | watcher.go:152-171 | Finalizing removes the group, re-parses it, correlates every record and hands it over; an unknown id changes nothing |
| ParsedFields.RecordFields | parser.go:504-585 | The record of every group: sender, recipient, subject, message id, relay and TLS peer are each what the first line of the group that matches that very field states, blank when none does; the size is the first size, the time the first line's, status and detail the last match's, the client the original one, else the logged one, else who connected. Handed to a filter session with lines in the log, it shows that session's last score, the action, rule and (for an accept only) onward id of its last acting line, its disposition, and the lines of both in time order; otherwise no filter, its own lines, and the outcome its status tells |
| ParsedFields.RejectFields | parser.go:224-255 | After the groups comes one record per rejection, in order, with the rejection's id, time, stage, response, client, sender and recipient, and nothing else |
| ParsedFields.OrderOfAppearance | parser.go:478-510 | Records are in the order in which their queue ids first appear |
| ParsedFields.GroupGrows | parser.go:484-501 | A line of a queue id goes behind the waiting TLS line, whatever its group; one that opens a group goes behind the waiting connect line as well; no other group changes |
| ParsedFields.HeldConnectWaits | parser.go:455-458 | The held connect line is the last one, as long as no line has opened a group since |
| ParsedFields.HeldTlsWaits | parser.go:459-462 | The held TLS line is the last one, as long as no line with a queue id came since |
| Outcomes.DerivedSays | parser.go:187-220 | A record's outcome is a given word exactly when its status, detail, relay and size tell that word, listed word by word |
| Outcomes.DeliversLocalIff | direction.go:49-63 | Mail is delivered locally exactly when a local transport's name occurs in the relay or one of the five phrases in the detail, in any case |
| Outcomes.ShownOutcome | store.go:457-465 | A row shows the disposition, or without one the first word of the status in lower case |
| Parser.ParseLines | parser.go:440-589 | The two-pass loop returns the specified records; what they show is stated by ParsedFields |
| Parser.ScanLines | parser.go:454-502 | The grouping loop over mutable groups, verdicts and held lines computes the specified groups |
| Parser.OrderCoversGroups | parser.go:478-501 | Every group is output exactly once |
| Parser.GroupStandsAlone | parser.go:478-501 | Every group the parser builds is not empty and has the shape that re-parses to itself |
| Parser.GroupReparses | parser.go:454-502 | Parsing any group of the batch parser alone gives exactly one record, with that queue id and exactly the group as raw lines |
| LiveTail.PendingReparses | watcher.go:152-159 | The same for every group the watcher holds, which is what finalizing relies on |
| Parser.GroupHasItsLines | parser.go:478-501 | A group holds every line of its queue id in the input, once and in order |
| Parser.VerdictIsLast | parser.go:118-133 | A filter session's verdict carries its last score, everything its last acting line says, and all its lines in order |
| SplitMerge.MergePieces | store.go:474-551 | Merging a second flush gives the record of one parse in sender, recipient, subject, size, message id, relay, TLS, status, raw lines and disposition if and only if no blank first match hides a later value and the first outcome was still open |
| SplitMerge.SplitInvariance | store.go:474-551 | Over any number of flushes, the record agrees with one parse after each of them if and only if every cut is clean in that sense |
| SplitMerge.ClientMerges | store.go:496-498 | The client agrees if and only if an original client came in the first flush, or neither an original client nor, over a connecting host, a plain one that one parse takes from the second differs, or the first shows none and one parse takes all that the second shows |
| SplitMerge.TimeMerges | store.go:475-477 | The time agrees if and only if the first flush starts with a stamped line or the second does not |
| SplitMerge.FilterMerges | store.go:501-519 | For a message handed to the content filter in one of two flushes, the merged record shows the filter, action, score, rule, session and onward id of one parse of both if and only if the session's lines in that flush's log say what all of them say |
| SplitMerge.WholeSessionMerges | store.go:501-530 | So it does when the whole session is in that flush's log |
| SplitMerge.WholeSessionShown | store.go:520-530 | And then it has the lines of one parse |
| SplitMerge.BlankMatchIsFilled | store.go:490-492 | Two lines on which the merge shows a message id that one parse does not |
| SplitMerge.ClosedOutcomeIsKept | store.go:544-550 | Two lines on which the merge keeps an expired outcome although both show the later bounce as status |
| SplitMerge.StatusConcat | parser.go:381-397 | The terminal status of all lines is that of the later part when it has one |
| Timeline.TimelineIsStable | parser.go:169-183 | A timeline has the same lines without duplicates, sorted by time, ties in first-seen order, and building it again changes nothing |
| Timeline.TimelineOrder | parser.go:169-183 | Of two lines of a timeline the first is older, or as old and seen first |
| Timeline.TimelineAbsorbs | parser.go:169-183 | Adding lines already in a timeline leaves it as it is |
| Timeline.SortRaw | parser.go:169-183 | The de-duplicate-and-sort loop computes the timeline |
| Timeline.OneTimeline | parser.go:169-183 | Any sorted arrangement of the distinct lines that keeps ties in order is the timeline, whatever sort produced it |
| Timeline.LegMergeKeepsAndGains | store.go:427-452 | The merged raw lines are those of primary and leg, each once and in time order; the relay, and status, detail and outcome, are the leg's where it has them and else the primary's; subject, message id, sender and recipient are the primary's and where blank the leg's; everything else is the primary's |
| Timeline.MergeDeliveryLegIdempotent | store.go:427-452 | Folding the same leg again changes nothing |
| Timeline.MergeKeepsOrFills | store.go:474-540 | After a merge every field is the stored one, or where that is blank the incoming one of the same name; the lines are the stored ones and then the incoming ones not among them; status and detail are the last stated on these lines, or else the first stored |
| Timeline.MergeReclassifies | store.go:541-563 | The disposition is told anew from the merged record exactly when the stored one is blank or one of the seven that a Postfix status gives, and kept otherwise |
| Timeline.MergeRecordIdempotent | store.go:474-551 | Merging the same source again changes nothing |
| Timeline.ScannerVerdictSurvives | store.go:541-550 | A disposition that no Postfix status gives survives every merge |
| Timeline.IncomingVerdictIgnored | store.go:544-550 | The disposition of the incoming record never has an effect, whatever is stored |
| Rspamd.VerdictIsShown | rspamd.go:62-94 | A verdict gives a record its action, its score and message id where there are any to give, spam for a reject and deferred for a delay, and its line once; all else stays |
| VerdictMerge.DispositionSurvives | store.go:541-550 | A stored disposition survives a merge if and only if no Postfix status tells it, or the last status on the merged lines, or else the first one stored, does, by its prefix, detail, relay and size |
| VerdictMerge.VerdictSurvives | store.go:541-550 | What a scanner verdict says survives a merge if and only if it is a reject, or the last status on the merged lines, or else the first one stored, begins with deferred |
| VerdictMerge.RawCommutesIff | rspamd.go:74-94 | The scanner's line ends up in the same place before and after a merge if and only if it is shown already, or nothing else is new, or it is the first of the new lines and occurs there once |
| VerdictMerge.VerdictCommutes | rspamd.go:74-94 | Verdict and merge in either order give the same record if and only if the line's place, the message id, the action, the status and the disposition commute, each read off the two records |
| VerdictMerge.QuietStatusCommutes | rspamd.go:74-94 | The status does when the scanner's line states no Postfix status |
| VerdictMerge.SecondRecordOrder | store.go:257-382 | In the store, a verdict before or after a second unlinked record of a listed message gives the same state under exactly these conditions |
| Timeline.MergeInto | store.go:474-551 | The field-by-field merge with its seen-lines set computes the specified merge |
| Store.Store.AddRecords | store.go:253-301 | The new state, the database and the sink after a batch are those of the specified run, flushed once, in order |
| Store.Store.AddRecord | store.go:257-296 | One record takes the specified branch and captures the specified snapshots, only when something persists them |
| StoreSpec.AddNotesOrigins | store.go:257-260 | Servers are shown from the first record on that names one |
| StoreSpec.IngestNotesOrigin | store.go:309-322 | So they are after a batch of a named server, whatever it holds |
| StoreSpec.LoadNotesOrigins | store.go:222-228 | And after loading a row that names one, listed or not |
| Store.Store.RegisterDelivery | store.go:411-421 | Sets the link, folds and hides a leg listed earlier, and captures the hidden leg |
| Store.Store.ApplyRspamdVerdict | store.go:365-382 | Enriches and flushes a listed record, or keeps the verdict waiting; reports which |
| StoreSpec.VerdictGoesToListed | store.go:365-382 | A verdict goes to the listed row its local id leads to and changes no other; without such a row it replaces what waits for the id |
| StoreSpec.WaitingVerdictIsTaken | store.go:400-406 | A record of whatever server takes the verdict that waits for its queue id, which then no longer waits; nothing else changes |
| Store.Store.IngestSnapshots | store.go:309-346 | All snapshots are accepted and persisted stamped, subsumed ones are not listed, and nothing goes to the sink |
| Store.Store.LoadFromDB | store.go:216-251 | Without a database nothing changes; otherwise the first row per key is listed with its link |
| Store.Store.PurgeOlderThan | store.go:793-821 | Memory drops the rows older than its cutoff and re-indexes the rest, the database drops by a cutoff of its own, the count is reported; delivery links are left as they were |
| Retention.KeptIsFilter | store.go:800-807 | Exactly the rows with a zero or not older time are kept, in order |
| Retention.PurgeLeavesRest | store.go:793-811 | A purge of memory changes the rows and their index only: delivery links, waiting verdicts and the mark of named servers stay |
| Retention.PurgeListsAll | store.go:800-810 | For every store whatever, each kept listed row resolves to itself after the purge if and only if no kept row of its key follows |
| Retention.ReceiverListsAll | store.go:309-346 | In every run of a receiver, with reloads and any number of purges, every row is listed under its own key |
| Retention.PurgeKeepsLink | store.go:800-810 | A delivery link leads to its row after the purge if and only if no row up to that one is dropped |
| Retention.PurgeKeepsLinks | store.go:800-810 | A well-linked store is well linked after the purge if and only if no row up to the last linked one is dropped |
| Retention.PurgedRunLinked | store.go:253-810 | A run of mail, verdicts and purges is well linked throughout if and only if every purge in it is of that kind |
| Retention.AfterCleanPurge | store.go:253-821 | After such a purge any further run keeps links and rows matching, and the database a mirror if no row fell between the two cutoffs |
| Retention.PurgeMirrors | db.go:249-256 | Purging memory and then the database, by a later cutoff, keeps the database a mirror if and only if no row is old enough for the later cutoff only |
| Retention.RowBetweenCutoffs | db.go:249-256 | A concrete row that stays listed and is gone from the database |
| Retention.PurgedLookup | store.go:800-810 | After a purge, whatever the store, an id leads to the last kept row of its own key, if that is listed, and to nothing else |
| Retention.PurgeForgetsAliases | store.go:800-810 | In a well-linked store an id leads where it did if and only if it led nowhere or to a kept row of its own |
| Retention.AnyRun | store.go:253-346 | In runs mixing mail, verdicts, ingestion, loading and purges every queue id resolves to an existing row, with nothing assumed about delivery links, whose use is guarded |
| Retention.StaleLinkAfterPurge | store.go:793-810 | A concrete run in which a purge makes a link point at another row, and the leg is folded into that row |
| VerdictOrder.OrderDoesNotMatter | store.go:365-406 | With one verdict and one mail record per id, no origin and no links, every interleaving with the same mail order ends in the same store, with one row per mail record |
| VerdictOrder.RunJoins | store.go:365-406 | After any such run each row carries the verdict seen for its id, and exactly the verdicts without mail wait |
| VerdictOrder.SecondRecordBreaksOrder | store.go:544-550 | A concrete case where a greylisting verdict before or after a second record of its message gives different dispositions |
| Direction.DirectionResolver | direction.go:152-183 | The six-map index records for each message id exactly the signals its listed legs give |
| Direction.DirectionMeans | direction.go:131-149 | One if and only if per answer over a message's listed legs: relayed when some leg passes it through and none delivers it here; otherwise inbound when some leg took it from the internet, or no leg took it from or sent it to the internet and only the recipient side is a local domain; outbound when no leg took it from the internet and some sent it there, or none did and only the sender side is local; internal when no leg did either and both sides are local or neither |
| Direction.GivesMeans | direction.go:43-126 | A leg is from the internet when its client's bracketed address is public and in none of its own server's networks and no line shows a login; to the internet when its relay's is and it does not deliver here; it passes through when both hold, it names no onward id and no line shows a re-injection |
| Direction.IpIsBracketed | direction.go:15-24 | The address of a token is the text of its first non-empty bracket |
| Direction.Resolve | direction.go:184-193 | Looking a record up in the index gives the direction its message's legs define |
| Direction.DetailDirection | store.go:687-760 | The detail page's single pass over the records gives the same direction |
| Direction.DirectionOf | direction.go:197-220 | The pass over a list of legs classifies exactly the signals some leg gives |
| Direction.LegsGiveDirection | direction.go:197-220 | When the legs share one configuration, that pass agrees with the index and the detail page |
| Direction.DirectionIsOfTheMessage | direction.go:152-194 | All legs of a message have one direction, and the order and repetition of records do not matter |
| Queries.Search | store.go:936-1058 | Counts, page and edge flags are those of the specified filter, sort and clustering |
| Queries.SearchFinds | store.go:942-957 | A search lists, once each, exactly the records that are not merged into another row, match, and have the asked direction in any case |
| Queries.SearchOrder | store.go:965-982 | Without grouping, of two rows the earlier one is at most the later one in the chosen column, or at least it when descending: times and sizes as numbers, texts lexicographically, addresses, subjects and servers in lower case; rows equal there, and all rows of a column that does not sort, are in the order of the records |
| Queries.ColumnSearch | store.go:965-982 | The column order is a stable sort of the matches: a permutation, in order, ties as stored |
| Queries.GroupedSearch | store.go:984-996 | Clustering permutes the rows, keeps each group contiguous and in its column order, and orders groups by their best-ranked row |
| Queries.MessageIsTogether | store.go:984-996 | With grouping, rows of one message id, and the row without one, are next to each other and in column order |
| Queries.GroupedOrder | store.go:984-996 | Of two rows in grouped order, the first row of the earlier one's message in column order does not come after that of the later one's |
| Queries.Cluster | store.go:984-996 | The best-rank loop and re-sort compute the clustering |
| Queries.OneResult | store.go:965-996 | Any two stable sorts in a row, by column and by group rank, give the specified result |
| Queries.PagesTile | store.go:998-1007 | Consecutive pages laid end to end are the result |
| Queries.EdgesAgree | store.go:1038-1048 | A page is said to continue below exactly when the next page is said to continue above |
| Queries.EdgesMean | store.go:1038-1048 | A page continues above exactly when the row before it belongs to the message of its first row, and below exactly when the row after it belongs to that of its last |
| Statistics.Stats | store.go:1292-1377 | The counting loop makes each counter the number of records its name says |
| Statistics.OutcomesMean | store.go:1336-1355 | Each outcome counter is the number of records that pass all filters and show one of its words |
| Statistics.TotalMeans | store.go:1329-1355 | The total is the number of records that pass all filters; other counts those that show none of the named words and are not blank |
| Statistics.DirectionsMean | store.go:1313-1358 | Direction counters count the records that pass the other filters and go that way; bounce messages are those with a null sender that no scanner or server refused |
| Statistics.StatsConserve | store.go:1308-1368 | Direction counters sum to the matches ignoring the direction filter, and outcome buckets with the blank rows sum to the total |
| Statistics.StatsAgreeWithSearch | store.go:1329-1335 | The statistics total is the number of rows a search with the same filters finds |
| Queries.ColumnsOrder | store.go:1151-1181 | Every column, ascending or descending, orders rows totally and consistently |
| Stamps.DatesKeepCalendar | parser.go:281-292 | Dates keep the calendar: a second, day, month or year later is that many nanoseconds later, with leap years by centuries, from the start of year 1; Feb 29 of a common year is Mar 1 |
| Stamps.NeverFarAhead | parser.go:281-292 | An inferred time is never more than a day after the reference |
| Stamps.InferredRightIff | parser.go:281-292 | The inferred time is right if and only if the stamp is of the reference's year and not more than a day ahead, or of the year before and its counterpart this year is more than a day ahead |
| Stamps.InferredRight | parser.go:281-292 | It is right for a stamp of no later year, up to a day ahead, whenever the same stamp a year later is more than a day ahead |
| Stamps.PastIsNotLaterYear | parser.go:281-292 | Every stamp of a past time is of no later year |

## Left out

- Regular expressions and text decoding (parser.go:22-63, 333-361): what each finds is part of the line, so an expression that spans two lines of a group (the two-address recipient form can) is not modelled, nor one line matched as several kinds at once beyond the order of the source's tests.
- Case folding and white space outside ASCII and Latin-1, and the string form of a key (the pair of origin and queue id is used, as for ids without NUL).
- Files, rotation, compression, tickers, the pruning of waiting verdicts by age, and handing over groups on a timeout (watcher.go:175-192): wall clock and I/O. A group handed over on a timeout is re-opened by later lines, which `SplitMerge` covers for the record and the live theorem does not.
- Restarting the tail from a saved checkpoint: what is lost then is what the checkpoint did not cover, which `Checkpoint` states.
- HTTP, sessions, certificates, enrolment, the wizard, the web page, build data: plumbing and libraries.
- SQL text, COPY and its fallback, batching and database errors: the database is a map from key to record whose last write wins.
- IP, CIDR and Postfix configuration parsing: predicates given from outside. So is the record filter of a search.
- Top lists, hourly buckets, the earliest time, suggestions, row formatting and tooltips, related items and reject pairing on the detail page, and the cross-server flag of a search row.
- Flushing outside the lock: flushes are taken in lock order. Sends delayed past a later send are not modelled: each attempt takes effect before the next one or never.
- Updates through aliases: a record is a value, so sharing of raw-line slices between a record and its snapshot is not captured.
- LiveTail.TailMatchesScan: for runs without timeouts, with the stated condition on late lines, which GroupsAgreeIffQuiet shows to be exact.
- LiveTail.RecordAgreesIffSettled: a late filter line that repeats an earlier one of its session letter for letter, time stamp included, may or may not change the record.
- SplitMerge.MergePieces: for records without a filter or scanner verdict and for distinct lines; the client and the time have conditions of their own, in ClientMerges and TimeMerges.
- SplitMerge.SplitInvariance: for the same records and lines as MergePieces.
- Checkpoint.CheckpointCoversIff: the checkpoint's second offset, into the scanner's log, is not tracked; what it can miss is in CheckpointPassesVerdict.
- Lookups.RestartIsTransparent: for mail with one primary per onward id in which no leg names a further one; so is Refinement.AddOneMaps.
- Refinement.SameMapsSameFuture: covers later mail; Lookups.EventTwins covers verdicts.
- VerdictMerge.SecondRecordOrder: for a second record that names no onward id and is no leg.
- Agreement.ReplicationAgrees: for records of the server's own logs, with one primary per onward id, and a receiver that listed nothing for this server before.
- Pipeline.LogReachesReceiver: for mail without onward ids and distinct ids; LinkedLogReachesReceiver instead asks for one primary per onward id, one onward id per message, and none named by a leg.
- VerdictOrder.OrderDoesNotMatter: for one mail record per id; what a second one changes is in VerdictMerge.
- Queries.Search: the start of a page is not negative; the record filter is given, and the row's columns and cross-server flag are left out.
- Statistics.Stats: without top lists, hourly buckets and the earliest time.
- Stamps.InferredRight: in a zone without clock changes.
