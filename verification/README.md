# FactoryStream, modelled and proved

FactoryStream claims that its gold tables equal ground truth exactly, whatever the transport did to the events on the
way. This project models the parts that carry the claim and proves what is true of them, for every input, every
configuration, every random draw and every interleaving of crashes:

- **The bronze consumer** as a step machine that may die between any two of its effects (`ConsumerModel`), the class
  whose methods take only steps of that machine (`BronzeConsumer`), the objects it writes (`BronzeLog`, `ObjectKeys`,
  `Calendar`), the silver dedupe that follows (`Silver`), when the group can get on (`Progress`), the crash-free loader
  (`Loader`), what lies in storage row by row (`StoredRows`, `RawBronze`), and which runs store a row twice (`Replays`).
- **The disorder injector**, pass by pass on mutable event objects (`Disorder`, `Publishing`, `Injector`), what every
  injection guarantees (`Reordering`, `Transport`, `InjectionFacts`), the manifest (`Manifest`, `Measures`, `Checksum`,
  `Windows`), and the completeness ledger (`Ledger`).
- **The plant simulator** (`PlantClock`, `Simulator`, `PlantRun`), the schema migrations and the staging view that undoes them
  (`Events`), and the contract registry (`Registry`).
- `EndToEnd` joins them: from any injection, through any partitioning, any drained consumer run and any tie-breaking in
  silver, to the exact content of the ledger.

Times are integer microseconds and durations exact reals. The random source (`Draws`) is an oracle that may return any
value in range, so a contract that holds of a pass holds for every seed. Faults, clocks, hashes and the assignment of
keys to partitions are parameters. A broker value carries its class: it parses, it does not, it is null, the parser
raises on it what it does not catch (a `schema_version` of `Infinity` overflows `int`), or it is handled to the end and
then fits no column (a `schema_version` of 3000000000, an `event_id` of 5, a reject whose `machine_id` is 5), so that every
write of its batch is refused. One consumer owns all partitions, and a partition delivers its offsets in order without
gaps.

## What turned out false, and when it holds

- *A window past the watermark reconciles, net of corruption.* It does iff some event of it has a clean copy, no event of
  it has both a clean and a corrupted one, and the durations the warehouse stages of what was delivered differ by less
  than 0.01 from what the manifest leaves of all (`EndToEnd.LakeReconcilesExactly`). Corruption is drawn per copy, after
  duplication: any event retried once with one copy hit breaks its window for good (`EndToEnd.PartlyHitIsBroken`), and a
  window that lost every copy is `broken` at any age. The third condition holds by itself when durations are numbers; a
  duration in quotes, which the manifest skips and the warehouse casts, breaks its window with nothing corrupted
  (`EndToEnd.QuotedDurationIsBroken`).
- *Raw bronze equals `event_count - corrupt_count + duplicate_extra_count`.* Two things can break it. An event with two
  corrupted copies is subtracted once (`Transport.TwoHitsBreakIdentity`); published records satisfy the identity iff no
  event of the window has them (`Transport.RawBronzeIdentityIff`). And a replay can store a row twice.
- *A replayed batch overwrites itself, never duplicates.* It does iff the clock is in the same hour and the cut is the
  same (`BronzeLog.ReplacesIff`); a replay in another hour leaves both objects, for any event and any two hours
  (`RawBronze.ReplayStoresTwice`). A write keeps rows single iff it has nothing to write, its object is there under its
  very name, or none of its rows has landed (`Replays.PutKeepsOnceIff`), and no later write repairs one that does not
  (`Replays.TwiceStaysTwice`). So of a drained consumer the *distinct* rows satisfy the identity under the condition
  above, and the stored rows iff also every write of the run was such (`RawBronze.RunStoresDocumentedIff`). Every run without
  a crash or a raised call is (`Replays.SmoothStoresOnce`, `RawBronze.SmoothRawBronze`), and so is a finished load
  (`RawBronze.LoadedRawBronzeIff`).
- *A restart loses nothing.* What a new process will not read again has landed iff the group has a commit on the
  partition, or reads it from the beginning, or had landed everything the log holds
  (`ConsumerModel.RestartLosesNothingIff`). With `auto.offset.reset` at `latest` and no commit yet, what was read is
  skipped (`ConsumerModel.LatestCanSkip`), and once the group commits past a skipped message it never lands
  (`ConsumerModel.SkippedIsLost`).
- *The consumer gets through whatever is on the topic.* The docstring of `parse_message` says that whatever does not parse
  is quarantined. On bytes that overflow `int` the parser raises instead; and what it does parse or reject may fit no
  column, so that its write is refused on every attempt. The group can drain the broker iff nothing of either kind lies at
  or after its commits (`Progress.CanDrainIff`): no run reads past the one (`Progress.PoisonBlocks`) or commits past the
  other (`Progress.MisfitBlocks`, `Progress.OneMisfitStops`).
- *Schema drift preserves meaning.* `to_v2` does iff a cycle payload has no `operator` that the engine reads as null beside
  an `operator_badge` that it does not; Athena reads arrays and objects as null, DuckDB as their text
  (`Events.EnginesReadRenamesApart`). `to_v3` further needs a duration that the warehouse reads as the milliseconds written for it, which
  for a JSON number is a whole number of them. Both fail on payloads (`Events.RenameErasesBadge`,
  `Events.RoundingErasesDuration`), on none that the simulator emits (`Simulator.SimulatedStreamSurvivesDrift`).
- *A diff without backward breaks means that old data can be read.* It does iff no shared field became required
  (`Registry.CleanBackwardMeansReadsIff`).
- *A reported break means that data is refused.* The docstring of `compare` calls a narrowed type a backward break; the
  code reports any change of type as a break both ways. The report is a false alarm iff nothing new is required and every
  shared field kept its type or had it dropped or widened from integer to number, some field the latter
  (`Registry.BackwardFalseAlarmIff`, `Registry.ForwardFalseAlarmIff`, `Registry.WideningIsReportedAsBreak`).
- *The checksum tells id sets apart.* Over an alphabet of ids it does iff the alphabet leaves out NUL
  (`Checksum.FaithfulIff`, `Checksum.NulCanCollide`).
- *The two window functions agree.* They do iff the width divides the hour (`Windows.WindowsAgreeIff`).
- *The loader quarantines whatever does not parse.* `load` raises, and leaves the lines behind it unread, at the first
  line that is JSON but no object, whose key is no text that can be encoded, whose numbers the decoder refuses, or on which
  the parser raises (`Loader.FailingLineStops`), and at the first flush of a batch with a row that fits no column
  (`Loader.UnstorableLines`). It finishes iff no line raises and every line's row can be stored
  (`Loader.DirectLoader.Load`).
- *A shift ends.* Every shift does, whatever is drawn, iff the shortest changeover and the shortest units of the smallest
  order together move the clock by a microsecond (`PlantClock.ShiftEndsIff`): a positive changeover is enough
  (`PlantClock.ChangeoverSuffices`). The canon also accepts a changeover of nothing with a cycle below the clock's tick,
  and negative changeovers that set the clock back (`PlantClock.SomePlantsDoNotAdvance`); from any point of such a shift
  without breaks to come there are draws for as many turns as one likes that never reach its end
  (`PlantClock.ShiftNeedNotEnd`).

## Model

| member | source | states |
|---|---|---|
| ConsumerModel.RunInv | src/factorystream/consumer/consumer.py:183-263 | The invariant of the step machine holds over every run: offsets line up, each buffer is a classified log slice up to the position that reaches back to the commit or further, storage holds exactly what landed, everything before the commit is durable. |
| ConsumerModel.CommitInv | src/factorystream/consumer/consumer.py:318-328 | A commit of one past the highest buffered offset keeps the invariant, acknowledged or applied and then raising: it moves exactly to the read position, past durable messages only. |
| ConsumerModel.HighestIsLastRead | src/factorystream/consumer/consumer.py:290-292 | The maximum over records and rejects is the last offset read, so the committed offset is the read position. |
| ConsumerModel.CommittedIsDurable | src/factorystream/consumer/consumer.py:277-316 | In every reachable state, an offset committed past is stored, in bronze if it parsed and in quarantine otherwise. |
| ConsumerModel.BufferIsUncommittedSlice | src/factorystream/consumer/consumer.py:193-263 | In every run in which no applied commit went unacknowledged, the buffer is the log slice from committed to position, each message once, and empty iff the two are equal. |
| ConsumerModel.BufferIsSlice | src/factorystream/consumer/consumer.py:193-263 | In every reachable state the buffer is a log slice up to the position, each message once, that begins at the commit or before it. |
| ConsumerModel.RunPreservesObjects | src/factorystream/consumer/writer.py:181-234 | No run, with any crashes and replays, ever loses or changes the entries of an object that was written. |
| ConsumerModel.RestartLosesNothingIff | src/factorystream/consumer/consumer.py:158-175 | From every reachable state: after a restart, every offset before the new position has landed iff the group has a commit on the partition, or reads from the beginning, or everything the log holds since coverage began has landed. |
| ConsumerModel.SkippedIsLost | src/factorystream/consumer/consumer.py:158-175 | A message that the group has committed past without landing it is landed by no continuation of the group. |
| ConsumerModel.LatestCanSkip | src/factorystream/consumer/consumer.py:168 | With `latest`, a run that crashes before its first commit and restarts is drained and has skipped a message. |
| ConsumerModel.FromBeginningCoversAll | src/factorystream/consumer/consumer.py:168 | Reading from the beginning, every run covers every partition from offset 0. |
| ConsumerModel.DrainedIsComplete | src/factorystream/consumer/consumer.py:258-263 | A drained group that covers from 0 has landed every message of every partition. |
| Progress.CanAlwaysDrain | src/factorystream/consumer/consumer.py:183-263 | From every reachable state, whatever crashed and failed before, some continuation drains the broker, if every message at or after the commits can be stored. |
| Progress.CanDrainIff | src/factorystream/consumer/consumer.py:183-263 | From every reachable state the group can drain the broker as it stands iff every message from its commits on can be stored: the parser raises on none, and the fields of each are what their columns take. |
| Progress.PoisonBlocks | src/factorystream/consumer/consumer.py:94-139 | No run of a group whose processes read from the beginning, crashes and all, gets past a message on which the parser raises. |
| Progress.MisfitBlocks | src/factorystream/consumer/writer.py:181-234 | No run of a group whose processes read from the beginning, crashes and all, ever commits past a message that cannot be stored. |
| Progress.OneMisfitStops | src/factorystream/consumer/writer.py:43-69 | A log of one such message is never drained, whatever such a group does. |
| Progress.SomeMisfits | src/factorystream/consumer/writer.py:43-69 | A record with a version beyond 32 bits, and any record or reject with a field of a wrong type, is parsed or rejected and cannot be stored. |
| ConsumerModel.RunKeepsStorable | src/factorystream/consumer/writer.py:181-234 | Over every run, only what can be stored ever lands. |
| BronzeConsumer.PartitionBuffer.Append | src/factorystream/consumer/consumer.py:236-253 | A message joins the records when it parses and the rejects otherwise, at the end, and the clock of the batch is not touched. |
| BronzeConsumer.BronzeConsumer.constructor | src/factorystream/consumer/consumer.py:142-175 | A new process is the machine's restart: it owns nothing but the committed offsets and the store. |
| BronzeConsumer.BronzeConsumer.WriteBatches | src/factorystream/consumer/consumer.py:294-302 | Bronze is written before quarantine, each only if there is something to write; a write that fails, or is refused because a row fits no column, leaves the rest undone. |
| BronzeConsumer.BronzeConsumer.FlushPartition | src/factorystream/consumer/consumer.py:277-328 | A flush takes exactly the machine's write, write, commit steps, cut short where the fault strikes or a row fits no column; it empties the buffer iff it succeeds, without a fault iff all its rows fit, and otherwise commits nothing, or, when the applied commit raises, exactly the read position. |
| BronzeConsumer.BronzeConsumer.FlushDue | src/factorystream/consumer/consumer.py:267-270 | Due partitions are flushed unless one raises; partitions that are not due keep their buffers. |
| BronzeConsumer.BronzeConsumer.FlushAll | src/factorystream/consumer/consumer.py:272-275 | Every buffer is empty afterwards unless a flush raises; none does when nothing outside fails and every buffered row fits, and one does when some row does not. |
| BronzeConsumer.BronzeConsumer.Receive | src/factorystream/consumer/consumer.py:217-253 | One delivered message is the machine's poll step; the position moves unless the parser raises. |
| BronzeConsumer.BronzeConsumer.Deliver | src/factorystream/consumer/consumer.py:217-257 | A delivery moves the position by one unless the parser raises; unless something raised, the partition's buffer is not due afterwards; without a fault it raises iff the parser does or a due buffer holds a row that fits no column. |
| BronzeConsumer.BronzeConsumer.Turn | src/factorystream/consumer/consumer.py:194-257 | One turn of the loop for each thing a poll may bring: what is flushed, what moves, what stays. |
| BronzeConsumer.BronzeConsumer.Loop | src/factorystream/consumer/consumer.py:183-263 | Any script of events and faults is a run of the machine; a normal exit leaves every buffer empty and committed equal to position on every partition. |
| BronzeLog.EntriesPartitionSlice | src/factorystream/consumer/consumer.py:236-253 | Each message of a slice is a record or a reject and not both. |
| BronzeLog.RangeDeterminesBatch | src/factorystream/consumer/writer.py:192-193 | The smallest and largest offsets of a batch determine it: cutting the log again at that range gives the same rows. |
| BronzeLog.OverwriteIsSafe | src/factorystream/consumer/writer.py:151-162 | Writing any fresh cut of the log replaces an object of its name only by one with the same entries. |
| BronzeLog.ReplacesIff | src/factorystream/consumer/writer.py:151-172 | Two cuts of a partition go to one object iff their slots and offset ranges agree, iff their slots agree and they are the same rows. |
| BronzeLog.PutLandsBatch | src/factorystream/consumer/writer.py:181-234 | After a write an entry is stored iff it was before or is in the batch. |
| ObjectKeys.PadRoundTrip | src/factorystream/consumer/writer.py:159-162 | A zero-padded number is read back, also when it is longer than its field. |
| ObjectKeys.BronzeKeyTextInjective | src/factorystream/consumer/writer.py:151-162 | Bronze key text determines hour, partition, first and last offset, for all non-negative offsets, the day written as a Gregorian date. |
| ObjectKeys.QuarantineKeyTextInjective | src/factorystream/consumer/writer.py:165-172 | Quarantine key text determines day, partition, first and last offset. |
| Calendar.DateOfInjective | src/factorystream/consumer/writer.py:158-160 | No two day numbers are the same date. |
| Calendar.DateHasItsNumber | src/factorystream/consumer/writer.py:158-160 | Every date from year 1 on is the day that as many days before it number. |
| Calendar.EpochStarts | src/factorystream/consumer/writer.py:158-160 | Day 0 is the first of January 1970. |
| ObjectKeys.BronzeKeyTextOrder | src/factorystream/consumer/writer.py:159-162 | Below 10^12, key text of one hour and partition sorts like the offset ranges. |
| Silver.EffectivelyOnce | transform/models/silver/slv_events.sql:14-31 | In every reachable state, any dedupe of all stored rows is, apart from ingest time, a dedupe of the distinct messages that landed. |
| Silver.EffectivelyOnceConverse | transform/models/silver/slv_events.sql:14-31 | And every dedupe of what landed is one that the stored rows can give. |
| Silver.CrashedRunEqualsCleanRun | transform/models/silver/slv_events.sql:14-31 | Two runs that drained the same log, crashed or clean, have the same silver rows. |
| Progress.SilverExists | transform/models/silver/slv_events.sql:14-31 | Any stored rows have a dedupe. |
| Loader.DirectLoader.Flush | src/factorystream/consumer/load.py:112-124 | The nested flush writes and empties both buffers of a partition and counts rows and objects, up to the first batch with a row that fits no column. |
| Loader.DirectLoader.Read | src/factorystream/consumer/load.py:127-150 | One line takes the next offset of its partition, and no full batch is left waiting; it fails only when some line so far cannot be stored. |
| Loader.DirectLoader.Load | src/factorystream/consumer/load.py:102-155 | The load finishes iff no line raises and every line's row can be stored; then everything is flushed, else the lake is sound for the lines read, which are all before the first that raises unless a flush was refused. |
| Loader.LoadedExactlyOnce | src/factorystream/consumer/load.py:105-155 | Every line that is not blank is one message, every message is stored as one row of one object of its own area, and the rows stored in either area are the loader's counters and together the lines. |
| Loader.FailingLineStops | src/factorystream/consumer/load.py:127-145 | A line is where the reading stops iff it raises, and JSON that is no object, a key that is a value but no text that can be encoded, numbers the decoder refuses and an object the parser raises on all do. |
| Loader.UnstorableLines | src/factorystream/consumer/load.py:112-124 | A version beyond 32 bits, and any field of a wrong type, is read and cannot be stored. |
| Loader.LoaderMatchesConsumer | src/factorystream/consumer/load.py:102-153 | The loader and any consumer run that drained the same logs hold the same entries in the same areas; the consumer stores at least as many rows, as many iff none of its rows lies twice, and as many when it never crashed and no call raised. |
| StoredRows.RowsOfEntries | src/factorystream/consumer/writer.py:181-234 | Stored rows of given entries are at least as many as the entries, and as many iff no two objects share one. |
| Replays.PutKeepsOnceIff | src/factorystream/consumer/writer.py:151-172 | A write of any cut of the log leaves no row of a kind in two objects iff it has nothing to write, its object is there under its name, or none of its rows of the kind is stored. |
| Replays.TwiceStaysTwice | src/factorystream/consumer/writer.py:151-172 | A row that lies in two objects does so after every step. |
| Replays.RunStoresOnceIff | src/factorystream/consumer/consumer.py:277-316 | A run from a state without doubled rows ends without iff every write in it was such. |
| Replays.SmoothStoresOnce | src/factorystream/consumer/consumer.py:183-263 | After any run without an abort, an unacknowledged commit, a restart or a new group, no row lies in two objects. |
| RawBronze.MessagesOfSize | src/factorystream/consumer/consumer.py:236-253 | The records of a window become as many distinct messages of the broker. |
| RawBronze.StoredRawBronze | src/factorystream/generator/manifest.py:90-92 | In a drained lake the distinct rows of a window number the documented figure less the repeated corruptions; the stored rows are at least as many, and as many iff no two objects share one of them. |
| RawBronze.RunStoresDocumentedIff | src/factorystream/generator/manifest.py:90-92 | A run that drains the broker stores the documented figure less the repeats iff each of its bronze writes had nothing to write, or found its object there, or none of its rows of the window landed. |
| RawBronze.SmoothRawBronze | src/factorystream/generator/manifest.py:90-92 | Without a crash or a raised call the rows stored are the documented figure less the repeats, and equal to it iff no event of the window has two corrupted copies. |
| RawBronze.StoredCopiesConserved | src/factorystream/generator/manifest.py:90-94 | In a drained lake the distinct stored rows of a window in bronze and in quarantine are together its events plus their extra copies. |
| RawBronze.LoadedRawBronzeIff | src/factorystream/generator/manifest.py:90-94 | In a finished load the stored rows of a window are the documented figure less the repeats, and equal to it iff no event of the window has two corrupted copies; with the quarantined rows they are its events plus their extra copies. |
| RawBronze.ReplayStoresTwice | src/factorystream/consumer/writer.py:181-205 | Any event published once, whose bronze write lost its commit and was repeated in another hour, lies in a drained group's bronze twice. |
| Disorder.CopyAll | src/factorystream/generator/disorder.py:160 | Deep copies: fresh, pairwise distinct objects with equal content. |
| Disorder.ApplyClockSkew | src/factorystream/generator/disorder.py:187-214 | Only event times of the logged machines move, each by its machine's logged offset up to the wander and rounding; the number of machines is the configured one. |
| Disorder.ApplySchemaDrift | src/factorystream/generator/disorder.py:217-245 | Each event is migrated as its rank in event-time order says, and the log names exactly the two tails, whichever cut comes first; it raises iff a duration from the v3 cut on is none that can be converted. |
| Disorder.TwoCutovers | src/factorystream/generator/disorder.py:229-243 | Migrating one tail to v2 and then another to v3 in place is the two cutovers, also when the v3 tail is the longer. |
| Disorder.VersionsFollowTime | src/factorystream/generator/disorder.py:229-243 | Versions never decrease from a strictly earlier to a strictly later event time, for any pair of cut fractions. |
| Publishing.ApplyLateArrival | src/factorystream/generator/disorder.py:248-264 | Only publish times of the pushed events move, by zero to the maximum, and the log names exactly those. |
| Publishing.GroupByMachine | src/factorystream/generator/disorder.py:280-282 | Each machine owns exactly the positions of its events, in order. |
| Publishing.ApplyOutOfOrder | src/factorystream/generator/disorder.py:267-293 | The in-place swaps leave each machine's positions holding its own events shuffled by its own draws, and the log names exactly the events drawn back; at rate zero nobody is. |
| Publishing.OutOfOrderIsLocal | src/factorystream/generator/disorder.py:284-292 | The event in a machine's slot began in that machine's sequence, at most its own draw, and at most the configured shift, further on. |
| Publishing.PositionsKeepMachines | src/factorystream/generator/disorder.py:280-293 | Whatever is drawn, each position of the publish list holds an event of the machine it held before. |
| Reordering.LaterSlotsUntouched | src/factorystream/generator/disorder.py:285-292 | Slots whose turn has not come hold their original event, so the id logged is the event moved. |
| Publishing.NoBacksIsOutOfOrder | src/factorystream/generator/disorder.py:277-278 | Turned off, the pass is the one in which nobody is drawn. |
| Reordering.ShufflePermutes | src/factorystream/generator/disorder.py:285-291 | The swaps permute a machine's sequence. |
| Reordering.EarlierOnlyByOwnDraw | src/factorystream/generator/disorder.py:286-291 | No event ends further ahead than its own draw; an event that was not drawn only moves later. |
| Reordering.FirstCarriedToLast | src/factorystream/generator/disorder.py:286-291 | Later moves have no bound: with draws 0, 1, 1, … the first event is carried to the last slot. |
| Reordering.TurnMovesOneBack | src/factorystream/generator/disorder.py:288-291 | One turn moves its own event back by exactly its draw and at most one other event, later. |
| Publishing.ApplyDuplicates | src/factorystream/generator/disorder.py:296-319 | Each event is followed at once by its extra copies, equal to it but for a publish time 5 to 900 ms later, and the log maps ids to their numbers. |
| Injector.ApplyCorruption | src/factorystream/generator/disorder.py:331-360 | Hit records become garbage under their own partition key, others stay, and the log names exactly the ids of the copies hit. |
| Injector.Inject | src/factorystream/generator/disorder.py:129-184 | The whole pipeline as a trace of every stage; the input is not written, and the canonical stream is not touched by the later passes. It raises iff a duration ranked from the v3 cut on cannot be converted, so never when all can. |
| InjectionFacts.RecordLevelKeepsIdentities | src/factorystream/generator/disorder.py:160-172 | Up to the canonical stream only event time, version and payload may differ from the input. |
| InjectionFacts.CanonicalIsOrdered | src/factorystream/generator/disorder.py:168-171 | The canonical stream is in event time, machine, id order. |
| InjectionFacts.InjectionTransports | src/factorystream/generator/disorder.py:160-184 | For unique ids: every record is a copy of a canonical event but for publish time, each event has one copy and its logged extras, and an id is logged corrupt iff a copy of it was hit. |
| InjectionFacts.RecordsConserved | src/factorystream/generator/disorder.py:296-319 | Records on the broker are the input events plus the extra copies, for any ids. |
| Transport.CopiesConserved | src/factorystream/generator/manifest.py:90-94 | Per window, records published whole plus records published corrupted are the events plus their extra copies. |
| Transport.RawBronzeIdentityIff | src/factorystream/generator/manifest.py:92 | Of published records, the documented identity holds in a window iff no event of it has two corrupted copies; otherwise it is off by the repeats. |
| Transport.OneEventTransported | src/factorystream/generator/disorder.py:296-360 | Any event with any number of copies, any of them hit, is a stream that may reach the broker. |
| Transport.TwoHitsBreakIdentity | src/factorystream/generator/manifest.py:92 | Any event retried once with both copies hit leaves no row where the identity counts one. |
| Windows.WindowsAgreeIff | src/factorystream/generator/manifest.py:54-58 | The manifest's and the warehouse's window agree on every instant, before 1970 too, iff the width divides the hour. |
| Windows.WindowLaws | src/factorystream/generator/manifest.py:54-58 | The manifest's window of any positive width contains its instant, starts where it starts, and is monotone. |
| Windows.SqlWindowLaws | transform/macros/dialect.sql:63-73 | So does the warehouse's. |
| Checksum.ChecksumEventIds | src/factorystream/generator/manifest.py:203-215 | The digest loop hashes the NUL-terminated concatenation of the sorted ids. |
| Checksum.PreimageIffSameMultiset | src/factorystream/generator/manifest.py:203-215 | For ids without a NUL the bytes hashed are equal iff the id lists are equal as multisets. |
| Checksum.NulCanCollide | src/factorystream/generator/manifest.py:212-214 | An id that holds a NUL can make different id sets feed the same bytes. |
| Checksum.FaithfulIff | src/factorystream/generator/manifest.py:203-215 | Over an alphabet of ids, equal bytes mean equal multisets iff the alphabet leaves out NUL. |
| Manifest.WindowManifest.Count | src/factorystream/generator/manifest.py:163-178 | One event adds its measures to its bucket and nothing else. |
| Manifest.WindowManifest.Attribute | src/factorystream/generator/manifest.py:183-198 | One event's corruption, lateness and extra copies are added to its bucket, corruption measure by measure. |
| Manifest.PassesAreManifest | src/factorystream/generator/manifest.py:144-198 | The two accumulating passes equal, key by key, filters and sums over the stream, and there is a bucket iff an event falls in it. |
| Manifest.BuildManifest | src/factorystream/generator/manifest.py:131-200 | The result lists every bucket once, strictly in key order, each with the declarative row and its ids' checksum, with or without injections. |
| Measures.BucketsPartitionStream | src/factorystream/generator/manifest.py:218-230 | Over distinct keys that cover the stream the event counts add up to its length. |
| Measures.TypesPartitionEvents | src/factorystream/generator/manifest.py:166-178 | In every bucket the four type counts add up to the event count, and units are cycles. |
| Measures.InclusionExclusion | transform/models/recon/completeness_ledger.sql:78-87 | Every measure over two id sets is the measure over their union plus that over their intersection. |
| Ledger.ToleranceSuffices | transform/models/recon/completeness_ledger.sql:135-138 | Rounding the three duration sums apart moves the duration delta by at most 0.0015, for any observed sum; so the tolerance passes no true difference of 0.0115 or more and fails no window without one. |
| Ledger.GoldExcess | transform/models/gold/agg_window_machine.sql:10-31 | In every bucket gold exceeds expectation by exactly the measures of the ids both corrupted and surviving. |
| Ledger.LedgerIsExact | transform/models/recon/completeness_ledger.sql:61-160 | One row per manifest window and none besides; its count deltas are the totals of the ids both corrupted and surviving; its duration delta is what is staged of the survivors against what the manifest leaves, within 0.0015 of the staged durations of those ids and what staging misreads of the others; missing from gold, reconciled and pending each hold iff a stated condition does, which with numeric durations is on ids alone. |
| Events.MigrationAlgebra | src/factorystream/generator/events.py:119-188 | `to_v2` is idempotent and absorbed by `to_v3`, before or after. |
| Events.ToV2KeepsMeaningIff | transform/models/staging/stg_events.sql:25-55 | Staging reads the same row before and after `to_v2` iff no operator that the engine reads as null shadows a badge that it does not, for any payload and either engine. |
| Events.ToV3KeepsMeaningIff | transform/models/staging/stg_events.sql:25-55 | Staging reads the same row before and after `to_v3` iff that and the engine reads the duration as the milliseconds v3 writes, for numbers and for numbers written as text. |
| Events.NumberSurvivesIffWhole | src/factorystream/generator/events.py:185-188 | For a JSON number that is a whole number of milliseconds. |
| Events.RenameErasesBadge | src/factorystream/generator/events.py:133-137 | A null operator beside any badge: staging reads the badge before `to_v2` and null after. |
| Events.EnginesReadRenamesApart | transform/macros/dialect.sql:39-47 | An array for operator beside a badge: Athena reads the badge before `to_v2` and null after, DuckDB the array both times. |
| Events.RoundingErasesDuration | src/factorystream/generator/events.py:185-188 | A cycle of 0.4 milliseconds has no duration left after `to_v3`. |
| Events.StagingAgreesWithManifest | src/factorystream/generator/events.py:140-163 | The warehouse and the manifest read one duration off a payload of any version whose durations are numbers. |
| Events.StagingAgreesIff | src/factorystream/generator/events.py:140-163 | Off any payload at all: exactly when they read the seconds alike, or read none and the milliseconds alike, or what the engine casts the seconds to is what the milliseconds say. |
| EndToEnd.SilverIsDelivered | transform/models/silver/slv_events.sql:14-31 | Silver of a drained lake has only canonical events, each id at most once, and every id that was not corrupted. |
| EndToEnd.SurvivesIffCleanCopy | transform/models/silver/slv_events.sql:14-31 | An id is in silver iff the broker got an uncorrupted copy of it. |
| EndToEnd.LakeReconcilesExactly | transform/models/recon/completeness_ledger.sql:61-160 | For any transported records with any payloads, partitioning, drained run and tie-breaking: the rows, statuses and all four deltas of the ledger are determined by which copies were corrupted and what durations the two sides read; with numeric durations the status by the copies alone, and the duration delta up to three roundings. |
| EndToEnd.EveryInjectionReconcilesExactly | src/factorystream/generator/disorder.py:129-184 | The same for every run of the injector on a unique-id stream, and numeric durations stay numeric through it. |
| EndToEnd.PartlyHitIsBroken | transform/models/recon/completeness_ledger.sql:61-160 | Any storable event, retried once with one copy hit, has a drained lake whose row past the watermark is broken, one event too many. |
| EndToEnd.QuotedDurationIsBroken | transform/models/recon/completeness_ledger.sql:135-149 | Any storable cycle whose duration is a number in quotes that the engine casts, published once and whole, has a drained lake whose row past the watermark is broken with no event too many. |
| EndToEnd.SomeLakeExists | src/factorystream/consumer/consumer.py:183-263 | For any published records that can be stored and any assignment of keys, a drained run and a silver table exist, so the theorems above speak of something. |
| EndToEnd.LakeNeedsFit | src/factorystream/consumer/consumer.py:183-263 | And if some record published whole cannot be stored, no run drains. |
| Simulator.MachineSim.Emit | src/factorystream/generator/sim.py:97-108 | An event of now, of this machine, published 40 to 400 ms later, that fits the stream so far. |
| Simulator.MachineSim.Transition | src/factorystream/generator/sim.py:110-117 | A state change from the current state, or nothing when already there. |
| Simulator.MachineSim.EndShift | src/factorystream/generator/sim.py:125-131 | A logout when someone is logged in, then idle. |
| Simulator.MachineSim.BeginOrder | src/factorystream/generator/sim.py:133-161 | The four announcements of a changeover with their times, a changeover drawn between the configured bounds in either order, the next order id, and numbering from zero. |
| Simulator.MachineSim.EmitCycle | src/factorystream/generator/sim.py:176-187 | A cycle under the next number of the running order. |
| Simulator.MachineSim.MaybeDefect | src/factorystream/generator/sim.py:189-200 | No defect or one, naming the unit just made with a listed code: none at rate zero, one at rate one. |
| Simulator.MachineSim.RunUnit | src/factorystream/generator/sim.py:163-205 | All that is said of a unit, in order and with its times: its cycle, the defect if one is drawn, the stop if one is drawn; and the clock moves by the cycle, the load and unload, and the stop. |
| Simulator.MachineSim.UnplannedStop | src/factorystream/generator/sim.py:207-211 | Held for a listed reason, and back to running, with the time between. |
| Simulator.WorkTurn | src/factorystream/generator/sim.py:286-316 | One pass through the loop is one turn of the clock: a due break, else the next order, else one unit. |
| Simulator.WorkShift | src/factorystream/generator/sim.py:286-316 | For a plant that advances the loop ends for every draw, at or after the end of the shift, along a path of turns no longer than its start allows, and keeps the machine's invariant. |
| Simulator.RunShift | src/factorystream/generator/sim.py:261-318 | A shift opens with a login at its start and leaves the machine idle with nobody logged in, no earlier than its end. |
| PlantClock.ShiftEndsIff | src/factorystream/generator/sim.py:286-316 | Every shift ends whatever is drawn iff the shortest changeover and the shortest units of the smallest order move the clock by a tick. |
| PlantClock.ShiftIsBounded | src/factorystream/generator/sim.py:286-316 | In a plant that advances, the turns taken and the turns left never exceed the turns left at the start. |
| PlantClock.ShiftNeedNotEnd | src/factorystream/generator/sim.py:286-316 | In a plant that does not, once its breaks are over, there are draws for any number of turns all of which begin and end before the end of the shift. |
| PlantClock.ChangeoverSuffices | src/factorystream/generator/sim.py:149-151 | A changeover that cannot be zero or negative is enough. |
| PlantClock.SomePlantsDoNotAdvance | src/factorystream/generator/canon.py:80-84 | Plants the canon accepts and whose shifts need not end: no changeover and a cycle below the tick, or a negative changeover. |
| Simulator.StateChangesChain | src/factorystream/generator/sim.py:110-117 | State changes are a chain from IDLE: each starts where the one before ended and goes elsewhere. |
| Simulator.UnitIsEmittedOnce | src/factorystream/generator/sim.py:163-187 | An order's cycles bear each number from 1 to their count exactly once, in order, also across shifts. |
| Simulator.OrdersRunInFull | src/factorystream/generator/sim.py:296-312 | Order ids are distinct, every order but the last ran to its units, and no cycle belongs to another order. |
| Simulator.DefectNamesEmittedUnit | src/factorystream/generator/sim.py:189-200 | Each defect names a unit whose cycle was already emitted. |
| Simulator.SimulatedStreamSurvivesDrift | src/factorystream/generator/sim.py:178-200 | Simulated payloads can be migrated, and both migrations are invisible after staging. |
| PlantRun.KeepSort | src/factorystream/generator/sim.py:241 | Filtering a stable sort is stably sorting what the filter keeps. |
| PlantRun.MachinesAreIsolated | src/factorystream/generator/sim.py:234-259 | One machine's events in the sorted plant stream are its own stream sorted, whatever other machines there are. |
| PlantRun.OtherMachinesDoNotMatter | src/factorystream/generator/sim.py:59-69 | When each machine's stream is a function of its plant data and seed, two plants that share a machine show the same events of it in the same order, whatever else they hold. |
| Registry.Compare | src/factorystream/contracts/registry.py:151-209 | The three loops report every difference once and nothing else, each group in name order. |
| Registry.VerdictsAreDual | src/factorystream/contracts/registry.py:136-144 | Swapping the versions swaps backward and forward. |
| Registry.ReadsIff | src/factorystream/contracts/registry.py:151-209 | With equal bounds, one schema reads all that another wrote iff it requires no field that the other did not and every shared field keeps its type, drops it, or widens integer to number. |
| Registry.CleanBackwardMeansReadsIff | src/factorystream/contracts/registry.py:151-209 | With no backward break, declared requirements and equal bounds, the new schema reads all old data iff no shared field became required. |
| Registry.CleanForwardMeansReadsIff | src/factorystream/contracts/registry.py:151-209 | The same for the old schema and new data. |
| Registry.BackwardFalseAlarmIff | src/factorystream/contracts/registry.py:191-207 | A reported backward break refuses no old data iff nothing new is required and every shared type is kept, dropped or widened, at least one not kept. |
| Registry.ForwardFalseAlarmIff | src/factorystream/contracts/registry.py:191-207 | The same for the old schema and new data. |
| Registry.RequiredFlagIsMissed | src/factorystream/contracts/registry.py:191-207 | An optional field made required is reported as fully compatible, though old data is refused. |
| Registry.WideningIsReportedAsBreak | src/factorystream/contracts/registry.py:191-207 | Integer widened to number is reported as breaking both ways, though old data is read. |
| Registry.BothCutoversBreakBothWays | contracts/event.v2.json:1-95 | The contract's two version steps are renames and break both ways. |

## Left out

- Consumer groups with several members and rebalancing: the code has no revoke handling; one consumer owns every partition, and a partition's log starts at offset 0 and has no gaps.
- Consumer counters and log lines: a retried write counts its rows twice, so no equality is claimed for them.
- A message without partition or offset, which the loop skips, is not modelled; the client never delivers one for a real record.
- Parsing of JSON, UTF-8, ISO timestamps and UUIDs: a wire value and a line of a file carry their class, and every truncation the injector writes is of the class that does not parse; texts of rejects are not truncated to 500 characters and carry no error message.
- Which fields make a parsed value or a reject fit no column: apart from versions beyond 32 bits, which are computed, that is a class of values too.
- Loader.DirectLoader.Load: the manifest half of `load` and `write_manifests` group rows by window into objects and add nothing to the guarantees above.
- ObjectKeys.BronzeKeyTextInjective: only for days of year 1 and later; the platform may print a year before 1000 in fewer than four digits.
- Floating point: durations and rates are exact reals, so rounding to three places is the only rounding there is.
- Ids are assumed distinct where a theorem says so; that 128 drawn bits do not repeat is a matter of probability.
- Disorder.ApplySchemaDrift: when it raises, which events were migrated before is not stated; the events are the injector's own copies and are dropped.
- Disorder.ApplyClockSkew: which machines are drawn, and all rates and distributions, are arbitrary within range; a rate's frequency is not stated.
- Simulator.RunShift: needs products, badges and defect codes to choose from, as `rng.choice` does, and a plant that advances, without which it need not end.
- PlantClock.ShiftNeedNotEnd: the clock is unbounded, where the code's would raise once it was set back before year 1.
- Ledger.LedgerIsExact: `observed_late`, the lag columns, the root-cause text and the checksum are selected by the ledger but compared with nothing, and are not modelled.
- Events.ToV2KeepsMeaningIff: what an engine casts a duration that is no JSON number to, and whether it reads arrays and objects, are parameters, and a unit number that is not a number is kept as the raw scalar; `line_id`, which v2 adds, is outside the compared columns.
- Registry.CleanBackwardMeansReadsIff: only the cycle payload's `type`, `required` and numeric bounds are modelled, as in the contract's files; detail texts and the report are not.
- Machine seeds, SHA-256, blake2b and CRC32 are arbitrary functions or draws.
- Kafka, S3, parquet, dbt, Athena and DuckDB, Terraform, containers, signals, command lines, the status page and the acceptance tools are plumbing.
- The canon's loader, the producer's file loop, and the dimension and fact models would only add easy members.
