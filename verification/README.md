# The cluster agent, verified

This project models the durable engine of the cluster agent, which keeps a node of a streaming panel in step with its
MAIN server while connections fail, processes stop and files survive, and proves what its protocols keep. It is
written in Dafny 4.11; `dafny verify dfyconfig.toml` checks all of it.

- **Event delivery and compaction.** Events are spooled as files in a lane, go to MAIN in numbered batches recorded on
  disk before they are sent, and a long backlog is compacted: the latest state per key, and a viewer's runs of upserts
  folded. `SpoolEvents` says what an event is, `MainStore` what it means to MAIN, `Compaction` what a compaction is
  and that it preserves the meaning. `Stage` is the two-pass algorithm over lines, proved to compute that. `ReadBack`,
  `StageRead`, `JsonLength` and `MergedTooLong` are about the events that are read back of it. `LaneNames` and
  `SpoolWorld` make lane, staging, manifest, record of the batch in flight, requests under way and MAIN one machine,
  in which a crash may come between any two operations; `SpoolSafety` has its invariant and what holds of every run,
  `SpoolOrder` what holds where spooled files' clocks rise, `SpoolLoss` runs that lose an event. `LaneAgent`, with
  `LaneOutside`, is the agent's code over that machine, which may do anything else it can between two operations.
  `SpoolRestored` is delivery from a MAIN that is restored to an earlier cursor. `LineReader` is the buffered reader
  of a spool file.
- **Streams.** `StreamsMain` is what MAIN may answer; `Streams` has the class that walks, resyncs, asks for deltas and
  checks stored records.
- **Commands.** `CommandWorld` is the machine of the three routes to the executor (the loop, a denial's list, the
  worker of commands that wait for a download), `CommandSafety` what its runs keep, `CommandState` what is saved,
  `CommandAgent` the routes as they run, each with the others interfering.
- **Registry.** `ConnRecords` has records, digests and what it is to mirror; `Registry` the class with its touches.
  `Crossings` takes the operations on one viewer apart: each reads, spools its event and changes the registry, in any
  order among others.
- **Cores.** `Nonce` (replay cache and proof window), `MainClock` (MAIN's clock over restarts and the lease judged by
  it), `Blocklist` (section and deltas), `Sorting`, `CanonicalQuery`, `RangeRead` (chunked and archive ranges),
  `Frames` (sealed frames). `Maps` has the option type.

Code that changes objects or runs loops is a class or a method proved against a function, and what the system promises
is proved of that function or of every run of a machine. The reading and checking of signatures, sealed records and
frames is ideal: what opens is what was made under that key, number and context.

## Model

| member | source | states |
|---|---|---|
| `SpoolEvents.ClassifyProper` | internal/clusteragent/compact.go:209-280 | The part of a slot that merges is its key's kind's, whatever the event. |
| `SpoolEvents.ClassifyViewers` | internal/clusteragent/compact.go:209-280 | An event is taken for an upsert or an end exactly when it names a viewer as one, and for that viewer's. |
| `SpoolEvents.WithPartClassifies` | internal/clusteragent/compact.go:439-455 | Replacing the part of an event that merges leaves what it is taken for: same class, same key, only that part changed. |
| `MainStore.ReplayConcat` | internal/clusteragent/compact.go:39-42 | Replaying events in two goes is replaying them in one, from any store. |
| `Compaction.RowMerges` | internal/clusteragent/compact.go:340-351 | Over any events, the row of a merging key is its fields before, each overwritten by the last event that has it. |
| `Compaction.SlotOutMakesTheRow` | internal/clusteragent/compact.go:389-401 | The one event compaction writes for a key makes, of any row, the row that all the key's events make of it. |
| `Compaction.AgreeThroughout` | internal/clusteragent/compact.go:372-434 | The invariant over every prefix: rows written already are equal, every viewer is as it was or inside a folded run and newer in hls_last_read alone. |
| `Compaction.CompactionPreservesMeaning` | internal/clusteragent/compact.go:303-436 | From every store, replaying the compacted events gives exactly the store the events give: rows, viewers, released reservations and what was seen at each other event. |
| `Compaction.CompactionPreservesEveryMoment` | internal/clusteragent/compact.go:35-45 | At every prefix the viewers open and ended, and the reservations released, are those of the uncompacted events, hls_last_read aside. |
| `Compaction.StayingSurvive` | internal/clusteragent/compact.go:46-48 | Every event that does not fold, and every remove and close, survives unchanged, as often and in order, in every prefix. |
| `Compaction.CompactNotLonger` | internal/clusteragent/compact.go:50-51 | A compaction never has more events than what it compacts. |
| `Compaction.CompactEventsPreserveMeaning` | internal/clusteragent/compact.go:303-436 | The same for events as they are encoded: what was written is classified again as it was meant, and means to MAIN what the tail meant. |
| `Stage.ReadTail` | internal/clusteragent/compact.go:310-324 | The lines classified are those of the tail read file by file, without the blank, too long and unreadable ones, each with its place. |
| `Stage.Notes.EndRun` | internal/clusteragent/compact.go:319-324 | A viewer's run ends: it is recorded if it has more than one upsert, and is open no more. |
| `Stage.Notes.NoteSlot` | internal/clusteragent/compact.go:333-351 | Of every key seen so far: its last event, how many, and their parts merged. |
| `Stage.Notes.NoteUpsert` | internal/clusteragent/compact.go:352-363 | Of every viewer: the run it is in and the longer ones it was in, each from first to last with the last one's place. |
| `Stage.Notes.NoteEnd` | internal/clusteragent/compact.go:364-366 | A remove or a close ends the viewer's run and nobody else's. |
| `Stage.Notes.EndAll` | internal/clusteragent/compact.go:369-371 | At the tail's end every open run is recorded as it stands. |
| `Stage.NoteAll` | internal/clusteragent/compact.go:314-371 | After the first pass the slots kept are each key's last event and merge, and the runs kept are exactly the runs of more than one upsert, in order. |
| `Stage.QueueAtUpsert` | internal/clusteragent/compact.go:402-418 | The head of a viewer's queue tells of an upsert whether it begins a run, is inside one, or stands alone, and where the run's last record is. |
| `Stage.Decide` | internal/clusteragent/compact.go:381-421 | The second pass's decision on an item, made from the kept slots and queues, is the one the specification of the compaction makes. |
| `Stage.WriteAll` | internal/clusteragent/compact.go:373-429 | The second pass writes the specified lines, in order, and each once. |
| `Stage.ChunkWriter.MakeRoom` | internal/clusteragent/compact.go:493-507 | A new chunk is begun exactly when there is none or the line would take the open one over a batch's events or bytes. |
| `Stage.ChunkWriter.Write` | internal/clusteragent/compact.go:493-517 | The line is appended to what is written; every chunk fits a batch or is one oversize line, and none was ended while it had room. |
| `Stage.StageTail` | internal/clusteragent/compact.go:303-436 | The two passes refine the compaction: the chunks hold exactly the compacted events, packed so that each fits a batch, and folded plus written is what was classified. |
| `ReadBack.FittingAreRead` | internal/clusteragent/compact.go:58-61 | If every merged event fits a batch, what is read back of a compaction is the compaction. |
| `ReadBack.LosesARow` | internal/clusteragent/events.go:299-318 | If one does not, nothing of its key is read back: from an empty store MAIN lacks a row it would have had. |
| `ReadBack.ReadMeansTheSameIff` | internal/clusteragent/compact.go:50-51 | What is read back of a compaction means what the events meant, for every store, if and only if every merged event fits a batch. |
| `ReadBack.ReadKeepsCounts` | internal/clusteragent/compact.go:46-48 | Whatever is lost, an event that never folds is read back exactly as often as it was there. |
| `StageRead.ChunksReadAs` | internal/clusteragent/events.go:299-318 | Reading the chunks that `stage` wrote, with the reader's limit on lines, gives the compaction but for merged events too long. |
| `StageRead.ReadBackMeansTheSameIff` | internal/clusteragent/compact.go:303-436 | The same if and only if, for the lines of the tail and the chunks made of them. |
| `MergedTooLong.Lengths` | internal/clusteragent/compact.go:449-454 | Two node.state events of 600000-byte fields each encode to at most 1 << 20 bytes, and their merge to more: the lengths are computed. |
| `MergedTooLong.MergedIsLost` | internal/clusteragent/compact.go:449-454 | Those two, compacted with the batch limit of the source, are read back as nothing at all. |
| `LaneNames.Spooled` | internal/clusteragent/events.go:239-255 | Listing a lane sorts its names: by clock, a chunk where the oldest file it replaces was. |
| `SpoolSafety.RunKeeps` | internal/clusteragent/compact.go:69-78 | Every world of every run, so every one a crash can leave, keeps the invariant of the disk, the requests under way and MAIN's log. |
| `SpoolSafety.LogOnlyGrows` | internal/clusteragent/events.go:149-226 | What MAIN applied is never taken back, and begins what it applied or will. |
| `SpoolSafety.NoLossNoRepeat` | internal/clusteragent/events.go:149-226 | Over every run in which no roll forward ended with a chunk lost that it had found, files arriving under any fresh name at any time, an event that never folds is in MAIN's log, in flight and in the tail together exactly as often as it was spooled. |
| `SpoolSafety.PlainNoLoss` | internal/clusteragent/events.go:149-226 | Where no compaction is committed or given up, that holds of every event. |
| `SpoolSafety.BatchIntact` | internal/clusteragent/events.go:176-192 | Until MAIN has applied the batch in flight all its files are there with the recorded number of events: the branch that drops a batch changed on disk is never taken. |
| `SpoolSafety.ResendIsTheSame` | internal/clusteragent/events.go:176-192 | A batch sent again is the same batch, whatever happened between, a compaction and a crash among it. |
| `SpoolSafety.SwapIsAtomicIff` | internal/clusteragent/compact.go:539-631 | From a commit to the first world in which the lane may be collected again, over every run, chunks lost at any time: the tail is exactly the old files or exactly the chunks, each as it was, if and only if the roll forward that ended it lost no chunk after it had found it. |
| `SpoolSafety.StoppedTorn` | internal/clusteragent/compact.go:587-592 | A torn lane whose roll forward stops is one of these. |
| `SpoolSafety.TornHolds` | internal/clusteragent/compact.go:75-78 | With a chunk lost, not found by a roll forward before, and a replaced file gone, no batch is ever made from the lane again, in no run. |
| `SpoolSafety.RecoveryResumes` | internal/clusteragent/compact.go:611-631 | Recovery interrupted after any of its steps and begun again ends in the lane it would have ended in, no chunk it had found being lost. |
| `SpoolSafety.RecoverTwice` | internal/clusteragent/compact.go:611-631 | Recovering a recovered disk changes nothing. |
| `SpoolOrder.PlanAdvances` | internal/clusteragent/events.go:149-226 | With clocks that rise, every step but a compaction's, and the end of one with a chunk lost, leaves what MAIN applied or will, in order, with what was spooled at its end. |
| `SpoolOrder.ExactlyOnce` | internal/clusteragent/events.go:149-226 | Without compactions MAIN's log, the batch in flight and the tail are, joined, the events spooled: its log is a prefix of them, no loss, no repeat, in order. |
| `SpoolOrder.CommitMeansTheSameIff` | internal/clusteragent/compact.go:539-545 | For every compaction committed: its chunks, as they will be read, mean what they replace if and only if its merged events fit. |
| `SpoolOrder.DeliveredOnceAndForAll` | internal/clusteragent/events.go:149-226 | Over every run in order in which what each commit merges fits a batch and no roll forward ended with a chunk lost that it had found, with crashes, lost replies, repeated and late requests and compactions given up, once all is sent MAIN has the meaning of everything spooled, from any store. |
| `SpoolLoss.LostForGood` | internal/clusteragent/events.go:299-318 | There is a run in order in which a tail of which nothing is read back is compacted and gone, and MAIN never had it. |
| `SpoolLoss.MissedForGood` | internal/clusteragent/compact.go:552-585 | Of any tail, a run in order in which its chunk is lost after the roll forward found it: the tail is removed, nothing holds the lane, and MAIN never has any of it. |
| `SpoolLoss.MissedHappens` | internal/clusteragent/compact.go:552-585 | An event that never folds, spooled once, is nowhere in the end. |
| `SpoolLoss.LossHappens` | internal/clusteragent/compact.go:303-436 | Of two states of a node whose merge does not fit, such a run ends with all sent and MAIN's store not meaning what was spooled. |
| `LaneOutside.MayCommit` | internal/clusteragent/compact.go:132-147 | Staged chunks that are read as the tail's compaction, under a generation no file has, may be committed. |
| `LaneOutside.SwapDone` | internal/clusteragent/compact.go:149-154 | Committed and rolled forward, no chunk being lost, in the place of the tail are its chunks, all of them and nothing of it, whatever was spooled meanwhile. |
| `LaneAgent.LaneSpool.RollForward` | internal/clusteragent/compact.go:552-585 | True exactly when the manifest is gone, which it is if no replaced file was gone; given up, every replaced file is as it was; no chunk being lost meanwhile, it ends where recovery ends, whatever comes between its operations. |
| `LaneAgent.LaneSpool.RemoveTheReplaced` | internal/clusteragent/compact.go:563-567 | The replaced files go, one by one, and what is to be recovered stays, no chunk being lost. |
| `LaneAgent.LaneSpool.MoveTheChunksIn` | internal/clusteragent/compact.go:568-576 | The chunks go in, one by one, those not in staging being passed over; what is to be recovered stays, no chunk being lost. |
| `LaneAgent.LaneSpool.Abandon` | internal/clusteragent/compact.go:593-607 | With a chunk found missing, given up exactly while no replaced file is gone; the tail is then as it was. |
| `LaneAgent.LaneSpool.RecoverCompaction` | internal/clusteragent/compact.go:611-631 | True exactly when nothing of the compaction is left to finish, which, no chunk being lost meanwhile, is exactly when it was not torn. |
| `LaneAgent.LaneSpool.Finish` | internal/clusteragent/events.go:423-428 | The applied batch's files go and then its record, and nothing else. |
| `LaneAgent.LaneSpool.Collect` | internal/clusteragent/events.go:258-283 | The files taken are the oldest with events, one at least if there is one, and as many as a batch has room for; files with nothing in them go; the count is their events'. |
| `LaneAgent.LaneSpool.CompactTail` | internal/clusteragent/compact.go:99-154 | Done, no chunk being lost meanwhile: in the place of the files behind the batch is their compaction, made by `StageTail` from their lines. Not done, whatever was lost: every one of them is as it was. |
| `LaneAgent.LaneSpool.Replace` | internal/clusteragent/compact.go:132-154 | The chunks staged, committed and swapped in, none being lost; or the tail as it was. |
| `LaneAgent.LaneSpool.CommitAndSwap` | internal/clusteragent/compact.go:136-154 | After the commit the swap is carried through, no chunk being lost; given up, the tail is as it was. |
| `LaneAgent.LaneSpool.Housekeep` | internal/clusteragent/events.go:325-361 | True exactly when no committed compaction is left, that is when the lane may be collected. |
| `LaneAgent.LaneSpool.SaveInflight` | internal/clusteragent/events.go:417-420 | The record of the batch is on the disk before it is sent, numbered past MAIN's cursor. |
| `LaneAgent.LaneSpool.SendOut` | internal/clusteragent/events.go:191-197 | What goes out is the recorded batch, which stays what it is. |
| `LaneAgent.LaneSpool.GetThrough` | internal/clusteragent/events.go:198-223 | MAIN, having got the batch, has applied it and answers its cursor: no gap. |
| `LaneAgent.LaneSpool.Post` | internal/clusteragent/events.go:193-222 | While MAIN keeps its cursor: a reply says the batch is applied; none is ever a gap; a lost one leaves the batch as it was. |
| `LaneAgent.LaneSpool.ShipOnce` | internal/clusteragent/events.go:149-226 | While MAIN keeps its cursor: at most one batch, the one in flight before any other; served, none is in flight and the next number is past MAIN's cursor. |
| `LaneAgent.LaneSpool.Ship` | internal/clusteragent/events.go:176-226 | Served, the batch is in MAIN's log, at its numbers, whole. |
| `LaneAgent.LaneSpool.RunEvents` | internal/clusteragent/events.go:100-145 | Over any passes, with greetings that tell MAIN's cursor at any time, every state is one of a run of the machine. |
| `SpoolRestored.KeptAfter` | internal/clusteragent/events.go:149-226 | What each step makes of MAIN's log, the batch in flight and the spool joined: all leave it, or add what is spooled, but a restore past events whose files are gone, and the end of a batch that MAIN no longer has, which take away exactly those events. |
| `SpoolRestored.LosesIff` | internal/clusteragent/events.go:173-179 | Events are lost if and only if MAIN is restored to a cursor before events whose files are gone, or a batch is ended that MAIN, restored since, does not have. |
| `SpoolRestored.LostAreCounted` | internal/clusteragent/events.go:149-226 | Over every run, MAIN restored however often, batches renumbered, with crashes, lost replies and requests repeated: exactly the events so counted are lost, and if there are none the log, the batch in flight and the spool are, joined, what was spooled. |
| `SpoolRestored.ArrivalKeepsIff` | internal/clusteragent/events.go:200-215 | A request that arrives, under its batch's number or an earlier one, leaves that joined sequence as it was if and only if it is of the batch in flight, or MAIN appends nothing of it, or just the events in flight in their place. |
| `SpoolRestored.StaleRepeats` | internal/clusteragent/events.go:173-179 | A run in which a request sent before the renumbering may arrive after it: MAIN then has its events twice. |
| `SpoolRestored.Sender.PostBatch` | internal/clusteragent/events.go:193-222 | MAIN restored at any moment: a gap in a reply is a number past MAIN's cursor and before the batch's; served, the number after the batch is one the next event may have. |
| `SpoolRestored.Sender.ShipOnce` | internal/clusteragent/events.go:149-226 | The number returned is one the next event may have: past MAIN's cursor, or the batch's in flight; what is lost is counted. |
| `SpoolRestored.Sender.Attempts` | internal/clusteragent/events.go:193-226 | The same of the three attempts, the batch renumbered after each gap; a gap past the batch never comes. |
| `LineReader.GoTrims` | internal/clusteragent/compact.go:699-700 | What trimming white space leaves stands in the line at the offset computed. |
| `LineReader.ReadSlice` | internal/clusteragent/compact.go:676-685 | A slice is the bytes through the next newline, or a full buffer without one, or the file's last ones. |
| `LineReader.NextSlice` | internal/clusteragent/compact.go:675-710 | However slices fall, what has been delivered and what is held make the plain split of the file up to there. |
| `LineReader.EndLine` | internal/clusteragent/compact.go:689-705 | A line is delivered exactly when the plain split delivers it: not blank, not too long before or after trimming. |
| `LineReader.EachLineBy` | internal/clusteragent/compact.go:665-711 | For every way of trimming that stands, every file and every buffer no larger than a line may be, the lines are the plain split's, and the bytes read the file's. |
| `LineReader.EachLine` | internal/clusteragent/compact.go:665-711 | That, for the source's trimming; and every line stands at its offset in the file and is no longer than allowed. |
| `LineReader.FoundStand` | internal/clusteragent/compact.go:660-664 | Every line of the plain split is the file's bytes from its offset on. |
| `LineReader.ReadLineAt` | internal/clusteragent/compact.go:467-478 | Reading at a delivered line's place gives the line. |
| `StreamsMain.RepliesAgree` | internal/clusteragent/streams.go:541-602 | An applied reply leaves every stream as it was or as MAIN has it. |
| `StreamsMain.PageAgrees` | internal/clusteragent/streams.go:438-476 | A page answered in full leaves every stream of its range as MAIN has it, the records it named being good, but for one MAIN does not hold and whose stored record could not be named. |
| `StreamsMain.PageAgreesText` | internal/clusteragent/streams.go:438-476 | The .json of every stream of its range then says what MAIN holds, whatever its .rep. |
| `StreamsMain.HalfHealsIff` | internal/clusteragent/streams.go:577-584 | A record whose .json and .rep are of two versions, named by its .json's etag, is as MAIN has it after a page if and only if MAIN has not changed the stream back to that, or sends it all the same. |
| `StreamsMain.SameIff` | internal/clusteragent/streams.go:577-584 | Where every .json says what MAIN holds, the node holds exactly that if and only if no .rep is of another version. |
| `StreamsMain.DeltaFreshens` | internal/clusteragent/streams.go:343-375 | A delta leaves what every .json says as MAIN has it or changed later; complete, as MAIN has it. |
| `StreamsMain.PassCursorIff` | internal/clusteragent/streams.go:384-391 | Every later change is past the cursor a pass takes if and only if the head of its first reply was at least 1. |
| `Streams.Sorted` | internal/clusteragent/streams.go:507-521 | The ids of a set, each once, ascending. |
| `Streams.StreamSync.Apply` | internal/clusteragent/streams.go:541-602 | A reply with a record that does not verify stores nothing; one applied leaves its records and removals and nothing else changed; one that fails midway leaves each stream as it was, as MAIN has it, or, its .json not written, with MAIN's .rep alone. |
| `Streams.StreamSync.StoreAll` | internal/clusteragent/streams.go:577-590 | The records stored are the reply's, the last of a stream's counting; failing, those before, and of one maybe the .rep alone. |
| `Streams.StreamSync.StoreHalf` | internal/clusteragent/streams.go:577-581 | The .rep is written and the .json not: nothing else changes, and a stream without a .json is not held. |
| `Streams.StreamSync.RemoveAll` | internal/clusteragent/streams.go:591-600 | Exactly the streams named go. |
| `Streams.StreamSync.StreamHashes` | internal/clusteragent/streams.go:482-504 | The etags named are those of the held records from there to `to` that have not failed their check, at most MAX_STREAM_HASHES. |
| `Streams.StreamSync.WalkOnce` | internal/clusteragent/streams.go:439-472 | A page leaves its whole range done, moves strictly on, and ends past the last id; failing, it leaves each stream as it was, as MAIN has it, or half written. |
| `Streams.StreamSync.Walked` | internal/clusteragent/streams.go:415-422 | Exactly the failed records that a page answered for in full are named again. |
| `Streams.StreamSync.PassOnce` | internal/clusteragent/streams.go:379-392 | A page carries the pass on over a MAIN that changes meanwhile: of every stream below where it stands the .json says what MAIN holds, or MAIN changed it past the pass's head; no record is damaged but by a write that fails midway. |
| `Streams.StreamSync.FullPass` | internal/clusteragent/streams.go:379-407 | A pass, interrupted and resumed however, tiles the id range from where it stood; with nothing withheld, and only then, the cursor becomes its head, past which every stream has changed whose .json differs. |
| `Streams.StreamSync.EndPass` | internal/clusteragent/streams.go:393-407 | With something withheld the cursor stays. |
| `Streams.StreamSync.Resync` | internal/clusteragent/streams.go:425-431 | The walk tiles the whole range, the cursor unmoved. |
| `Streams.StreamSync.ResyncOnce` | internal/clusteragent/streams.go:415-476 | One page: the walk goes on from where it stands, and what a pass counts on is kept. |
| `Streams.StreamSync.Recheck` | internal/clusteragent/streams.go:656-680 | Failed are exactly the held records whose .rep does not open to what the .json says. |
| `Streams.StreamSync.Heal` | internal/clusteragent/streams.go:415-476 | After the check and two whole walks of a MAIN that changes no more, the node holds exactly what MAIN does if and only if MAIN holds every stream whose stored etag could not be read. |
| `Streams.HealedIff` | internal/clusteragent/streams.go:525-537 | The same of any two whole walks: an unreadable etag is the one obstacle. |
| `Streams.StreamSync.Deltas` | internal/clusteragent/streams.go:343-375 | Asked until MAIN has no more, with nothing withheld, every .json says exactly what MAIN holds, if the cursor came from a head of at least 1; no record is damaged but by a write that fails midway. |
| `Streams.StreamSync.DeltaOnce` | internal/clusteragent/streams.go:343-375 | One delta: the same, unless MAIN answers that the whole is needed, has more, or withholds something. |
| `Streams.StreamSync.CatchUp` | internal/clusteragent/streams.go:272-300 | A pass over a changing MAIN and the deltas from its head leave every .json saying exactly what MAIN holds, if the pass's first reply had a head of at least 1; the node then holds exactly what MAIN does if and only if no record is damaged, and none is if none was and no write failed midway. |
| `Streams.StreamSync.SyncStreams` | internal/clusteragent/streams.go:246-300 | Every sync keeps what the next counts on: of each stream the .json says what MAIN holds, or MAIN changed it past the cursor, for a cursor from a head of at least 1. |
| `Streams.CaughtUp` | internal/clusteragent/streams.go:379-407 | In a pass of one page from a head of at least 1 followed by a delta, every stream ends as MAIN has it. |
| `Streams.HeadZeroMisses` | internal/clusteragent/streams.go:384-391 | From head 0 there are a MAIN and replies after which a complete delta leaves a stream MAIN holds not held. |
| `Streams.CatchUpIff` | internal/clusteragent/streams.go:384-391 | The node ends with what MAIN holds, for every MAIN, held records, replies and changes, if and only if the first reply's head is at least 1. |
| `Streams.HalfStays` | internal/clusteragent/streams.go:577-584 | A stream changed, stored by half and changed back: the next walk is sent nothing of it, and the other version's .rep stays. |
| `CommandSafety.RunKeeps` | internal/clusteragent/commands.go:172-253 | Every world of every run, crashes included, keeps the invariant of the three routes. |
| `CommandSafety.ExecutedTwiceIff` | internal/clusteragent/sealed.go:119-131 | Without a crash a route executes a command at most once; when all is quiet it was executed twice if and only if one route's check let it through while the other held it, checked and unrecorded. |
| `CommandSafety.AtMostOnce` | internal/clusteragent/sealed.go:22-27 | Where the loop and a denial are never under way at once, every command is executed at most once, by whichever route. |
| `CommandSafety.TwiceHappens` | internal/clusteragent/sealed.go:119-131 | A run in which a command is executed twice: the loop has checked it, a denial names it. |
| `CommandSafety.HighWater` | internal/clusteragent/commands.go:228-252 | The high-water never falls, in any run. |
| `CommandSafety.HighStep` | internal/clusteragent/commands.go:173-191 | A document that does not verify changes nothing. |
| `CommandSafety.RootsInOrder` | internal/clusteragent/artefact.go:319-356 | Over every interleaving of the loop and the worker, downloads pausing, failing and succeeding as they will, root commands are executed in strictly rising seq; with crashes, never in falling. |
| `CommandState.RemainingKeeps` | internal/clusteragent/sealed.go:80-99 | Dropping the expired entries keeps exactly the cmd_ids that have not expired. |
| `CommandState.State.FindKept` | internal/clusteragent/sealed.go:68-77 | Found exactly when the cmd_id is among those kept, and then it. |
| `CommandState.State.KeepSealed` | internal/clusteragent/sealed.go:80-99 | Kept are what was and has not expired, acks marked, and what was just run, in order. |
| `CommandState.State.Hold` | internal/clusteragent/artefact.go:228-242 | A new command goes in its place by seq and the high-water past it; one already kept changes neither. |
| `CommandState.State.FindRootHeld` | internal/clusteragent/artefact.go:245-254 | True exactly when a root command is kept and not handed on. |
| `CommandState.State.UpdateHeld` | internal/clusteragent/artefact.go:264-279 | Exactly the named command is changed or removed. |
| `CommandAgent.Agent.HandleCommand` | internal/clusteragent/commands.go:172-253 | Exactly a verified command is taken, and the high-water is then its seq; another leaves it. |
| `CommandAgent.Agent.TakeSealed` | internal/clusteragent/sealed.go:103-143 | Of a denial's list, each command that passes its checks and was not run before is run once, in the list's order; afterwards none of it would be run again. |
| `CommandAgent.Agent.HandOver` | internal/clusteragent/artefact.go:360-373 | Whatever the other routes do, the command ends handed on or gone, the other kept ones as they were. |
| `CommandAgent.Agent.AckHeld` | internal/clusteragent/artefact.go:391-403 | A command only left to ack changes nothing but its own entry. |
| `CommandAgent.Agent.Fetch` | internal/clusteragent/artefact.go:336-352 | A download that pauses holds root commands back behind it; otherwise the command ends handed on or gone. |
| `CommandAgent.Agent.PassOne` | internal/clusteragent/artefact.go:322-353 | One kept command of the pass: no root command before the next is left to hand on, unless roots wait. |
| `CommandAgent.Agent.ArtefactPass` | internal/clusteragent/artefact.go:319-356 | After a pass in which no root command waits, every root command kept when it began is handed on or gone. |
| `ConnRecords.SameButAgreesIff` | internal/clusteragent/registry.go:540-554 | Records taken for the same but for hls_last_read agree on all other keys if and only if the new one does not drop it. |
| `ConnRecords.Summarise` | internal/clusteragent/registry.go:416-431 | The digest computed viewer by viewer, in whatever order, is that of the open viewers and their owners. |
| `ConnRecords.ComputeDigest` | internal/clusteragent/registry.go:410-431 | The same of a store. |
| `ConnRecords.OwnerBut` | internal/clusteragent/registry.go:434-443 | hls_last_read is no part of an owner. |
| `ConnRecords.MirrorsDigest` | internal/clusteragent/registry.go:399-431 | A registry that mirrors MAIN's store has its digest. |
| `Registry.PutMirrorsIff` | internal/clusteragent/registry.go:136-167 | A Put keeps the mirror if and only if it is sent, or the viewer was not open, or the record does not drop hls_last_read. |
| `Registry.PutKeepsIff` | internal/clusteragent/registry.go:136-167 | The same of the mirror together with what is known to have been sent. |
| `Registry.DropHappens` | internal/clusteragent/registry.go:138-150 | Two records for which it fails: a held-back Put that has another key in the place of hls_last_read. |
| `Crossings.RunSound` | internal/clusteragent/registry.go:369-383 | Over every interleaving of the operations' steps, reading, spooling and changing: MAIN has what the events tell in the order spooled, the registry what the changes make in theirs. |
| `Crossings.PairEnds` | internal/clusteragent/registry.go:369-383 | Two operations that overlap, each having read before either changed, end in one of four ways, whatever the order of their steps. |
| `Crossings.AlikeMirrors` | internal/clusteragent/registry.go:399-431 | The stores mirror each other exactly when they are alike at every viewer. |
| `Crossings.RequestsCrossIff` | internal/clusteragent/registry.go:136-167 | Any number of requests of one viewer that are sent, their steps in any order: the stores are alike at it if and only if the record spooled last and the one noted last are. |
| `Crossings.ReapCrossesRequestIff` | internal/clusteragent/registry.go:202-233 | A reap and any request that overlap, over every order of their steps: alike if and only if the request ends the viewer, or its record is MAIN's (sent, and last) just when it is the registry's (noted last, or hls_last_read not what the reap read). |
| `Crossings.CatchUpCrossesRequestIff` | internal/clusteragent/touch.go:112-139 | A catch-up in which the viewer is behind and a request that overlap: alike if and only if the request was sent, after the catch-up's event, or leaves the viewer open and the same but for hls_last_read. |
| `Crossings.RemovalCrossesRequestIff` | internal/clusteragent/registry.go:358-366 | A removal and a request that overlap: alike if and only if the request ends the viewer, or its record is MAIN's just when it is the registry's. |
| `Crossings.TouchOutlivesReap` | internal/clusteragent/registry.go:222-233 | A run in which a request within a reap is held back: the viewer is open here and ended in MAIN's store. |
| `Crossings.ReapUndoesRequest` | internal/clusteragent/registry.go:222-233 | A run in which a request within a reap is sent and leaves hls_last_read as it was: the reap ends the viewer here, and it is open in MAIN's store. |
| `Crossings.RevivedHappens` | internal/clusteragent/touch.go:116-139 | A run in which a viewer that ended meanwhile is open again in MAIN's store by a catch-up's event. |
| `Registry.Registry.Put` | internal/clusteragent/registry.go:136-167 | A Put is held back exactly when hls_last_read alone changed within TOUCH_EVERY; a failed one changes nothing; the mirror is kept by the condition above, both ways. |
| `Registry.Registry.Note` | internal/clusteragent/registry.go:152-166 | The registry's new records, what was last sent, and a held-back touch pending for P2. |
| `Registry.Registry.Touch` | internal/clusteragent/registry.go:249-256 | The record returned is the old one with the new hls_last_read; the mirror is always kept. |
| `Registry.Registry.DropsOnPut` | internal/clusteragent/registry.go:136-167 | On the registry itself: a held-back Put of the record that drops hls_last_read loses the mirror. |
| `Registry.Registry.FanoutClosed` | internal/clusteragent/registry.go:322-355 | Exactly the daemon-served open viewers named leave, in both stores, or, the events not spooled, none does. |
| `Registry.Registry.Delete` | internal/clusteragent/registry.go:358-366 | The viewer leaves both stores, or neither. |
| `Registry.Registry.Close` | internal/clusteragent/registry.go:386-397 | After MAIN's close the viewer is open in neither store and the others are untouched. |
| `Registry.Registry.FindStale` | internal/clusteragent/registry.go:203-219 | Stale are exactly the open HLS viewers with no request for so long; one not seen before begins its wait. |
| `Registry.Registry.ReapOne` | internal/clusteragent/registry.go:220-233 | The viewer is ended in both stores, or, its event not spooled, in neither. |
| `Registry.Registry.Reap` | internal/clusteragent/registry.go:202-239 | Stale viewers are ended or left, the others untouched, the mirror kept. |
| `Registry.Registry.Seed` | internal/clusteragent/registry.go:493-513 | The registry holds the records seeded, the last of a uuid counting; being MAIN's, they mirror its store. |
| `Registry.Registry.DueTouches` | internal/clusteragent/touch.go:57-83 | The touches returned are due, at most as many as asked for, longest not sent first, and none left out was sent longer ago; touches MAIN has are forgotten. |
| `Registry.Registry.TouchesSent` | internal/clusteragent/touch.go:86-100 | What was sent is noted and not pending; a newer value stays pending; none is invented. |
| `Registry.Registry.BehindAll` | internal/clusteragent/touch.go:112-126 | An upsert for exactly the open viewers whose hls_last_read is not what was last sent. |
| `Registry.Registry.TouchesToP0` | internal/clusteragent/touch.go:112-144 | On success MAIN has every open record's hls_last_read, exactly those behind were sent, nothing is pending and the mirror is kept. |
| `Registry.Registry.SetP2` | internal/clusteragent/touch.go:161-183 | Switching P2 keeps the records and the mirror. |
| `Registry.Registry.Perform` | internal/clusteragent/registry.go:136-397 | Every operation keeps the mirror if and only if it is not a held-back Put that drops hls_last_read. |
| `Registry.Registry.PerformAll` | internal/clusteragent/registry.go:399-431 | After every sequence of operations, events failing as they will, with no such Put the registry mirrors MAIN's store and both digests are equal. |
| `Nonce.NonceCache.Fresh` | internal/clusteragent/dataplane.go:60-92 | Taken exactly when it is in neither bucket and the live one has room, after any rotation due; the buckets are then as the specification has them. |
| `Nonce.RepeatRefused` | internal/clusteragent/dataplane.go:60-92 | For every history of requests, a repeat within the window is refused. |
| `Nonce.NeverBothIff` | internal/clusteragent/dataplane.go:60-92 | A nonce used at t1 and at t2 is refused the second time for every history if and only if they are at most a window apart. |
| `Nonce.Bounded` | internal/clusteragent/dataplane.go:38-40 | Neither bucket ever has more than MAX_NONCES. |
| `Nonce.AcceptedAgainIff` | internal/clusteragent/xfile.go:96-129 | A proof accepted can be accepted again, its nonce used so long after its time is checked, if and only if the last instant of its time window and that delay come after the nonce window's end. |
| `Nonce.AtOnceAgainIff` | internal/clustercrypto/relayauth.go:56-75 | Where one instant serves both, if and only if the proof was made a whole window ahead of MAIN's clock and shown before the last nanosecond of a millisecond. |
| `Nonce.AcceptedTwiceWithin` | internal/clusteragent/xfile.go:96-129 | Any second acceptance is past the nonce window, by less than a millisecond and the difference of the delays. |
| `Nonce.AcceptedTwiceHappens` | internal/clusteragent/xfile.go:96-129 | A proof accepted twice, on clocks of whole milliseconds, 50 ms past the window. |
| `MainClock.NodeClock.NeverAhead` | internal/clusteragent/mainclock.go:88-93 | In every state the node's time is one MAIN's clock has reached and not below what MAIN was last seen to say. |
| `MainClock.NodeClock.Passes` | internal/clusteragent/mainclock.go:82-93 | The node's time does not go back as time passes. |
| `MainClock.NodeClock.Heard` | internal/clusteragent/mainclock.go:69-79 | A statement above all before it becomes the time; another changes nothing. |
| `MainClock.NodeClock.Save` | internal/clusteragent/mainclock.go:97-105 | Saved are the highest number heard and the time as it is. |
| `MainClock.NodeClock.Resume` | internal/clusteragent/mainclock.go:111-127 | The time taken up is no less than what was saved, nor than the node had, and never ahead of MAIN. |
| `MainClock.NodeClock.Restart` | internal/clusteragent/mainclock.go:111-127 | After a restart in the same boot the time is what was saved with the time since. |
| `MainClock.NodeClock.Reboot` | internal/clusteragent/mainclock.go:111-127 | After a reboot it is what was saved, however the monotonic clock stands. |
| `MainClock.RestartLoses` | internal/clusteragent/mainclock.go:97-127 | Against a clock never restarted, a restart in the same boot loses at most 1 ms as it is taken up and at most 2 ms ever after; it gains nothing. |
| `MainClock.RestartLosesTwo` | internal/clusteragent/mainclock.go:88-127 | The 2 ms are met. |
| `MainClock.DrainMin` | internal/clusteragent/leasefence.go:61-85 | The drain is between 0 and DRAIN_MIN_MAX minutes, whatever the settings hold. |
| `MainClock.FencedRefuses` | internal/clusteragent/leasefence.go:89-138 | A node that drops its viewers refuses new sessions. |
| `MainClock.NeverFencedEarly` | internal/clusteragent/leasefence.go:89-138 | Judged by the node's clock, none is dropped before the lease's end and its drain on MAIN's clock, none refused before its end. |
| `Blocklist.Replica.Round` | internal/clusteragent/replica.go:342-381 | Finished, what is held is what the reply makes of it, and in step with MAIN, with nothing stored of a later seq than saved, if it was; stopped, or its save failing, it is some of the reply's files over the state before. |
| `Blocklist.Replica.Sync` | internal/clusteragent/replica.go:244-393 | The same after any rounds over a list that changes between them, stopped anywhere. |
| `Blocklist.Replica.StoreFiles` | internal/clusteragent/replica.go:344-370 | Of a section, the record and then no delta; of an unchanged list, no delta; of a change, its delta in its place: all of it, or, stopped between two files, a part. |
| `Blocklist.InStepIff` | internal/clusteragent/replica.go:342-381 | Whatever is stored and whatever seq is saved, a round leaves MAIN's list if and only if: after a section, always; unchanged, the section stored is the one held; after a change, what is stored opens, is of an earlier seq, and the change names what is to change of it; else, it was before. |
| `Blocklist.ChangeMakesIff` | internal/clusteragent/replica.go:370-374 | A change from the saved seq, put in its place among the deltas stored, makes MAIN's list if and only if it names all that MAIN's list differs in from what the section and the deltas before it make, but for what later ones say. |
| `Blocklist.SettledKept` | internal/clusteragent/replica.go:342-381 | Rounds that finish keep the node in step with MAIN, with nothing stored of a later seq than is saved. |
| `Blocklist.ResumedIff` | internal/clusteragent/replica.go:342-381 | A round stopped between any two of its writes, or before the save, the check made and a change asked from the old seq stored over it: the list is MAIN's if and only if the change names what is to change of what was left. |
| `Blocklist.StoredHappens` | internal/clusteragent/replica.go:370-376 | A crash after a delta's file: an entry MAIN took off again stays in the node's list. |
| `Blocklist.DroppedHappens` | internal/clusteragent/replica.go:359-369 | A crash after the deltas are dropped over an unchanged section: the same. |
| `Blocklist.ResentHappens` | internal/clusteragent/replica.go:344-354 | A crash after a section sent again is stored: the same. |
| `Blocklist.Replica.OpenBlocklist` | internal/clusteragent/replica.go:641-687 | What is held opens exactly when its section's record is intact and the one held, and every delta's seq is past the one before. |
| `Blocklist.Replica.Recheck` | internal/clusteragent/replica.go:565-597 | What does not open is held no more, and the next call asks for the whole. |
| `Blocklist.Replica.Materialise` | internal/clusteragent/replica.go:708-739 | The list written is what the section and the deltas make, each entry once, sorted; in step, that is MAIN's at the seq held. |
| `Sorting.SortIs` | internal/clustercrypto/canonical.go:119-124 | Sorting gives the elements, as often, in order. |
| `Sorting.SortedOnce` | internal/clustercrypto/canonical.go:119-124 | There is one sorted sequence of given elements, so it does not matter how they are sorted. |
| `CanonicalQuery.RawUrlDecode` | internal/clustercrypto/canonical.go:143-158 | The loop computes the decoding: escapes of two hex digits of either case, anything else as it is. |
| `CanonicalQuery.RawUrlEncode` | internal/clustercrypto/canonical.go:160-174 | The loop computes the encoding. |
| `CanonicalQuery.DecodeEncode` | internal/clustercrypto/canonical.go:143-174 | Every byte string comes back from its encoding (sections 2.1 and 2.3 of RFC 3986). |
| `CanonicalQuery.Canonicalise` | internal/clustercrypto/canonical.go:105-129 | The method computes the canonical form. |
| `CanonicalQuery.CanonicalKeepsParameters` | internal/clustercrypto/canonical.go:100-129 | The canonical form says what the query says: the same decoded parameters, as often. |
| `CanonicalQuery.CanonicalIff` | internal/clustercrypto/canonical.go:100-129 | Two queries have one canonical form if and only if they say the same parameters as often, whatever their order and escapes. |
| `CanonicalQuery.CanonicalAgain` | internal/clustercrypto/canonical.go:100-129 | A canonical form is its own. |
| `CanonicalQuery.CanonicalRearranged` | internal/clustercrypto/canonical.go:100-129 | Rearranging the parameters leaves the canonical form. |
| `RangeRead.BothRead` | internal/clusteragent/relayproxy.go:749-779 | A header bytes=a-b, with white space about the range or without, is read as from a to b, refused when a is past b (section 14.1.2 of RFC 9110). |
| `RangeRead.StartRead` | internal/clusteragent/relayproxy.go:749-779 | A header bytes=a- is read as from a on. |
| `RangeRead.SuffixRead` | internal/clusteragent/relayproxy.go:749-779 | A header bytes=-n is read as the last n bytes, refused for none. |
| `RangeRead.SeveralRefused` | internal/clusteragent/relayproxy.go:749-779 | A header with a comma is refused. |
| `RangeRead.ChunkReader.Check` | internal/clusteragent/relayproxy.go:654-699 | A response is taken exactly when it is signed for the offset and the body, of the size first seen, and whole but for the last; then it is that chunk of the file as the answer found it. |
| `RangeRead.ChunkReader.Fetch` | internal/clusteragent/relayproxy.go:582-597 | What comes after the retries is that chunk of the file as some request found it, or nothing. |
| `RangeRead.CopyChunks` | internal/clusteragent/relayproxy.go:544-564 | What is written is the range, each chunk as one answer found it; cut short, it ends at a chunk's edge. |
| `RangeRead.ServeRange` | internal/clusteragent/relayproxy.go:497-564 | With 200 or 206 the bytes are the range selected, of a file of one size; with 416 it selects none. |
| `RangeRead.XFile` | internal/clusteragent/relayproxy.go:469-565 | The same from the request's header on. |
| `RangeRead.UnchangedAnswers` | internal/clusteragent/relayproxy.go:497-564 | Of a file that does not change exactly the range is written, or a prefix of it ending at a chunk's edge. |
| `RangeRead.SplicedHappens` | internal/clusteragent/relayproxy.go:688-697 | A file that changes and keeps its size is told by nothing: an answer that is neither file. |
| `RangeRead.ArchiveRangeFits` | internal/clusteragent/admin_timeshift.go:197-232 | A range served lies within the archive. |
| `RangeRead.CopiedInPlaceIff` | internal/clusteragent/admin_timeshift.go:255-272 | Whatever sizes were listed and whatever the files hold, every byte written stands where the archive has it if and only if no file gives anything after one that holds less than is asked of it. |
| `RangeRead.AllCopied` | internal/clusteragent/admin_timeshift.go:255-272 | Every file being there and as listed, all that is asked for is written, each byte in its place. |
| `RangeRead.ShortHappens` | internal/clusteragent/admin_timeshift.go:262-272 | A file found shorter than listed: what follows stands a byte too early. |
| `RangeRead.CopyQueue` | internal/clusteragent/admin_timeshift.go:240-273 | What is written is the copy the specification makes of the queue: of each file what it holds of what is asked, up to one that is gone. |
| `RangeRead.ServeArchive` | internal/clusteragent/admin_timeshift.go:188-274 | 416 exactly when the range is refused; else its bounds, the copy of it, and 200 exactly without a header; in its place if and only if by the condition above, and whole if every file is as listed. |
| `Frames.LengthRead` | internal/clusteragent/relayseal.go:136-164 | A length below 2^32 is read as it was written, in four bytes. |
| `Frames.CutJoins` | internal/clusteragent/relayseal.go:136-164 | A text cut in frames says the text. |
| `Frames.WriteRelayFrames` | internal/clusteragent/relayseal.go:136-164 | The stream written is the text's frames sealed, in order. |
| `Frames.NonEmptyIs` | internal/clusteragent/relayseal.go:173-211 | Reads that brought nothing take nothing from what the frames say. |
| `Frames.StreamRelaySealed` | internal/clusteragent/relayseal.go:173-211 | The stream written is a frame for every read that brought something. |
| `Frames.ReadFrame` | internal/clusteragent/relayseal.go:87-126 | A frame taken is the next one sealed; one that is not taken means the stream is not what was written. |
| `Frames.CopyRelayFrames` | internal/clusteragent/relayseal.go:87-126 | Of any stream, altered, reordered or cut, a prefix of the plaintext ending at a frame is written; ok means the stream is exactly those frames; of the stream written, all of it is. |
| `Frames.ChunkRoundTrip` | internal/clusteragent/relayseal.go:87-164 | A chunk written, its frames' lengths in four big-endian bytes, and read back is the chunk. |
| `Frames.LiveRoundTrip` | internal/clusteragent/relayseal.go:87-211 | A live body, however it was read, comes back as it was from frames with their lengths so written. |

## Findings

Where the code does not do what its comments promise, the model follows the code, shows an input, and says exactly
when the promise is kept.

- **A merged event may be lost.** A compaction's merged event is written however long it is, but a line longer than a
  batch is skipped when it is read back (`internal/clusteragent/events.go:299`), so a key's whole state can go missing
  although "nothing is dropped" (`internal/clusteragent/compact.go:50`). What is read back means what was spooled if
  and only if every merged event fits: `ReadBack.ReadMeansTheSameIff`, `StageRead.ReadBackMeansTheSameIff`,
  `SpoolOrder.CommitMeansTheSameIff`. Inputs at the batch size of the source: `MergedTooLong.MergedIsLost`; a whole
  run: `SpoolLoss.LossHappens`.
- **A proof may be accepted twice.** The proof's time is read before its nonce is used, and in milliseconds where the
  cache counts nanoseconds. A first acceptance can be repeated if and only if the last instant of the proof's window
  and the delay before its nonce is used come after the nonce window's end: `Nonce.AcceptedAgainIff`,
  `Nonce.AtOnceAgainIff`; an input: `Nonce.AcceptedTwiceHappens`. By how much it can come later:
  `Nonce.AcceptedTwiceWithin`.
- **A touch may hide a change.** `sameBut` compares the number of keys and the old record's keys but one, so a record
  with another key in the place of hls_last_read is taken for a touch, and held back. The mirror is kept if and only
  if that is not so: `ConnRecords.SameButAgreesIff`, `Registry.PutMirrorsIff`; inputs: `Registry.DropHappens`,
  `DropsOnPut`.
- **Events may cross.** A request, a reap, a catch-up and a removal each read the registry, spool an event and change
  the registry, with the lock released between. A reap compares hls_last_read alone before its change
  (`internal/clusteragent/registry.go:225`): a request between its event and its change leaves the stores apart if it
  was held back and hls_last_read differs, and if it was sent and hls_last_read is as it was. For every order of the
  steps of two that overlap, and for any number of requests, when the stores end alike is exactly
  `Crossings.RequestsCrossIff`, `ReapCrossesRequestIff`, `CatchUpCrossesRequestIff` and `RemovalCrossesRequestIff`;
  runs in which they do not: `Crossings.TouchOutlivesReap`, `ReapUndoesRequest` and `RevivedHappens`.
- **A compaction may lose a chunk.** `rollForward` looks for every chunk once, at its start, and then takes a chunk
  that is not staged for one moved in (`internal/clusteragent/compact.go:570`). From a commit to the lane's release
  the tail is all old or all new if and only if no chunk is lost after it was found: `SpoolSafety.SwapIsAtomicIff`; a
  run that loses an event for good: `SpoolLoss.MissedHappens`. A chunk lost before it is looked for has the compaction
  given up or the lane held: `SpoolSafety.TornHolds`.
- **A restored MAIN may lose events or have them twice.** An agent that takes a batch for applied ends it
  (`internal/clusteragent/events.go:173`) though MAIN, restored since, may not have it. Events are lost if and only if
  MAIN's restored cursor is before events whose files are gone, or such a batch is ended: `SpoolRestored.LosesIff`;
  how many, over every run: `SpoolRestored.LostAreCounted`. A request sent before the batch was renumbered may be
  applied after it: `SpoolRestored.ArrivalKeepsIff`, `SpoolRestored.StaleRepeats`.
- **A blocklist round may be stopped midway.** A delta, an unchanged section's dropped deltas and a section sent again
  are stored before the seq is saved. After a crash between, the node asks from the old seq and stores the answer over
  what it finds; the recheck finds nothing wrong. The list is MAIN's if and only if the answer names what MAIN's list
  differs in from what was left: `Blocklist.ResumedIff`, by `Blocklist.InStepIff`, which is for any reply over
  anything stored. An input for each of the three, MAIN naming only what differs from the seq asked:
  `Blocklist.StoredHappens`, `DroppedHappens`, `ResentHappens`.
- **A command may be executed twice.** The loop's check and a denial's are made before either records what it ran. It
  happens if and only if one lets a command through while the other holds it: `CommandSafety.ExecutedTwiceIff`,
  `CommandSafety.TwiceHappens`.
- **A pass from head 0 may miss a change.** The cursor of a pass is taken to be at least 1, so where MAIN's first
  reply had head 0 the change numbered 1 is in no later delta. The node catches up for every MAIN if and only if that
  head was at least 1: `StreamsMain.PassCursorIff`, `Streams.CatchUpIff`; an input: `Streams.HeadZeroMisses`. The
  resync, which does not use the cursor, heals it.
- **A record that cannot be named stays.** A stored record whose etag cannot be read is in no walk's hashes, so MAIN
  never says that it does not hold it. Two walks make the node MAIN's equal if and only if there is none:
  `Streams.HealedIff`, `Heal`.
- **A record may stay half written.** A stream's .rep is written before its .json, and a write that fails between is
  nothing the node remembers; walks name the .json's etag. The next page mends it if and only if MAIN has not changed
  the stream back to what the .json says, or sends it all the same: `StreamsMain.HalfHealsIff`; else it stays until
  the next check of the records: `Streams.HalfStays`. What a pass and its deltas promise is of the .json files
  (`Streams.StreamSync.CatchUp`).
- **A short archive file shifts what follows.** Of a file shorter than it was listed the rest of the range is taken
  from the next (`internal/clusteragent/admin_timeshift.go:269`). Every byte stands in its place if and only if no
  file gives anything after such a one: `RangeRead.CopiedInPlaceIff`; an input: `RangeRead.ShortHappens`.
- **A restart may lose two milliseconds.** One as the clock is taken up, and one more by the rounding after, against a
  clock never restarted: `MainClock.RestartLoses`, `MainClock.RestartLosesTwo`.
- **A file that changes at the same size may be spliced.** Chunks are checked one by one against digests of the file
  as it then is, and only its size is compared: `RangeRead.SplicedHappens`; unchanged, it is read right:
  `RangeRead.UnchangedAnswers`.

Proved not to happen: the branches for a gap in the numbers and for a batch changed on disk
(`internal/clusteragent/events.go:184-190`, `internal/clusteragent/events.go:200-215`) are never taken while MAIN
keeps its cursor, by `SpoolSafety.BatchIntact` and `LaneAgent.LaneSpool.Post`; a gap past the batch, whatever MAIN is
restored to, by `SpoolRestored.Sender.Attempts`.

## Left out

MAIN's own code is not part of this model; what it may answer is stated in `SpoolWorld.Receive`, `StreamsMain` and
`Blocklist.Answers`.

Events and compaction:

- JSON syntax: events are decoded values; their lengths are a parameter of the compaction, and computed where an input
  is shown.
- Numbers in events are integers, and an id that is an array or an object prints as a fixed word.
- SHA-256 marks: two upserts have one mark exactly when the marked values are equal.
- Names: no file is spooled under a name used before, and a compaction's generation is new. The source makes both of a
  clock and random bytes.
- `SpoolOrder` is about runs in which clocks of spooled files rise; after a reboot the monotonic clock they come from
  begins again, and then `SpoolSafety.NoLossNoRepeat` is what holds.
- fsync, failed removals and an unreadable manifest; of outside tampering, only that committed chunks may be lost from
  staging, at any time.
- SpoolRestored.Sender.ShipOnce: the spool is a sequence of events and the batch one of events; files, compaction and
  a save that fails are in `LaneAgent`, where MAIN keeps its cursor. A MAIN restored has a cursor, and the log, it had
  before.
- Thresholds, free space and back-off: whether a compaction begins, and whether staging or the commit fails, is left
  open.
- LaneAgent.LaneSpool.RunEvents: the lane's intervals, permits and fatal errors are left open; a record of the batch
  in flight that cannot be read is not modelled.
- P1's cap and `skip` events.
- LineReader.EachLine: an error returned by the callback, or by the file, ends the reading in the source.
- The size of a spooled file is a function of its events; the sizes of its lines are arbitrary within a batch.

Streams:

- Tickets, the flow switched off, busy retries, the bound of 100000 rounds of a walk, and the application of a change
  on the node.
- Streams.StreamSync.Heal: a .json's etag and its data are one write, as the file is replaced whole.
- MAIN restored from a backup, so that its head falls.

Commands:

- A denial's list holds no root command and no cmd_id twice, and after a crash MAIN hands commands out in seq order:
  both are MAIN's part.
- CommandAgent.Agent.HandleCommand: checking a command and looking it up among those kept are one step; refused
  commands' acks, their fates and the skip list are left out.
- CommandAgent.Agent.Fetch: the download itself is one of three outcomes.
- CommandState.State.Hold: a save that fails.

Registry:

- Registry.Registry.PerformAll: each operation is one step, its event spooled or not; operations that cross where the
  source releases its lock are in `Crossings`, one viewer's at a time, every event there being spooled.
- Crossings.ReapCrossesRequestIff: of operations of different kinds, two that overlap; any number only of requests
  that are sent.
- Numbers in a record are text, as in MAIN's store; a text that is no decimal integer counts 0.
- Admission, `Find`, `Counts`, `Oldest` and the snapshot on disk.
- Registry.Registry.DueTouches: touches sent equally long ago are ordered by nothing more than the time in the source,
  and by the uuid here.

Cores:

- The nonce cache has one user at a time; MAIN's clock is at a fixed offset from the machine's in `Nonce`, and no
  slower than its monotonic clock in `MainClock`.
- Blocklist.Replica.Sync: removals of deltas that fail, the other sections, and the parts of a section too large.
- RangeRead.CopyQueue: a file that changes while it is copied.
- RangeRead.ChunkReader.Check: tickets, the answer's nonce and the seal around a chunk; a digest is signed of the file
  as it is.
- Frames.CopyRelayFrames: the keys' derivation and the wrap-around of the frame counter at 64 bits.
- Strings are sequences of characters, or of bytes where the source works on bytes; nothing is normalised.
- HTTP, sockets, goroutines and logging.
