# A verified model of the Tracebox store, server and client loops

Tracebox records data pieces of many channels. A server receives framed
requests over TCP, a queue hands them to one worker, and a storage appends them
to files in day directories under a byte limit, deleting the oldest days when
room is short. A channel has an index file with fixed-size records and, when its
payloads vary in length, a data file as well. Readers turn these bytes back into
records; a scanner answers queries over all days; a client regroups several
streams by second.

This project states what these parts promise, and proves it. It is checked with
`dafny verify dfyconfig.toml`.

## How the model is laid out

- `Bytes`, `Sequences`, `Layout`, `Segments` - little-endian fields, the packed
  structures, and the bytes a run of one stream writer is to leave in its files.
- `ReaderSpec`, `Readers`, `Recovery` - what the reader classes compute on any
  bytes at all, the classes themselves, and what they get back from the files
  of a segment when these are intact, cut or followed by debris.
- `Formats`, `AnyFiles` - the bytes of files and frames spelled out, and what the
  readers make of files nobody vouches for.
- `FileNames`, `FreshNames`, `FileSystems`, `WriterSpec`, `StreamWriters`,
  `WriterRuns`, `WriterHistories`, `Rollover`, `Overgrowth`, `Leftovers`,
  `Misnamed` - the stream writer on a device that may fail at any call. A handle
  stays bad after a failure; a failing write leaves any beginning of its bytes.
  Histories record what has been acknowledged; `Leftovers` accounts for the rest
  of what is in the files, `Misnamed` for names the reader cannot pair.
- `Accounting`, `StorageSpec`, `Storages`, `Retention`, `Limits` - byte counter,
  day folders, eviction, and when the files stay within the limit. A file whose
  directory was removed while it was open takes bytes that no name leads to;
  they are counted as orphaned.
- `ScannerSpec`, `Scanners` - queries and paging.
- `Ledgers`, `Catalogs`, `Punctuality`, `WholeRun`, `Queries`, `Channels`,
  `SmallSessions`, `Losses` - whole runs of the storage, restarts included, what
  its queries answer then, channel by channel, and what it loses.
- `Shadows`, `CutSessions`, `CutQueries` - the same runs when every file may be
  cut anywhere behind each process: the storage does to the cut files what it
  would have done to whole ones.
- `Ingestion`, `LogWriters`, `Shutdown`, `Deliveries`, `TraceboxLoggers`,
  `Servers` - queue protocol, critical sections, destruction order, what becomes
  of the messages read, and descriptors.
- `EndToEnd` - from the messages a server parses to the answers of a query.
- `Framing`, `Combiner` - the two loop cores.

Where the program updates state the model is a class with the same fields, and
its methods are proved against functions on values; the lemmas are about these
functions. Protocols between threads are step systems, one step for each lock,
unlock, notification, wake-up and atomic access.

## Hypotheses

- Payload sizes are such that the worst-case result of a write fits an `int`
  (`WriterRuns.Fits`); time stamps are not 0, the error value of the reader;
  channel names do not contain `.idx` (`Punctuality.Storable`), and no slash.
  Where a channel is found by its name, names are below 32 bytes and hold no
  zero byte (`Layout.Named`).
- The calendar is any function from time stamps to eight-digit days, monotone
  where queries by day are concerned; clock readings in file names contain no
  dot. The seconds of the combiner come from any function, monotone where order
  matters.
- Whole-storage results assume file operations that succeed. Results about a
  single stream writer do not.
- Results that read files back need them below 4 GiB, because the reader keeps
  lengths in 32 bits (`Queries.SmallFiles`); limits and numbers of requests that
  keep them there are enough (`SmallSessions.PerChannelModest`). Variable-length files are proved to
  stay below it; fixed-size files are not limited by the code
  (`Recovery.FixedSegmentReadableIff` says exactly what that means).

## Where the code does less than it seems to

- `Folder::write` drops the header bytes `openFile` reports, so files can take
  more than the configured limit: `Losses.LimitExceeded`; the exact condition,
  on the state before a request, is in `Limits.LimitIff`, over runs in
  `Limits.LimitOverRuns`; by how much at most, in `Retention.BudgetOverRuns`.
- Eviction may remove the day being written. Its writers go on, and their writes
  are acknowledged: `Losses.AcknowledgedIntoNothing`; exact condition in
  `Losses.LostIff`.
- A request that does not fit even an empty storage is refused only after every
  day has been deleted: `Retention.RefusedIff`.
- After an index write has failed, every further write still appends to the data
  file while the offset stays, so the overflow check no longer bounds the file,
  and its 32-bit length can wrap: `Overgrowth.OpenedStreamLoses`; exact
  condition in `WriterRuns.CommittedStable`.
- The reader pairs files by the first `.idx` in the path, so a channel name that
  contains it loses its data file: `Misnamed.DottedChannelUnreadable`; exact
  condition in `FileNames.PairedNameIff` and `Misnamed.NextBasePlainIff`.
- A start that fails behind `getsockname` leaves the port number standing until
  the next stop: `Servers.FailedStartLeavesPort`; exactly which starts do, in
  `Servers.Server.Start`.
- `StreamsCombiner` does not sort within a second, although its header speaks of
  a single stream ordered by time: `Combiner.CombinedOutOfTime`; exact condition
  in `Combiner.OutputInTimeIff`. It drops second 0.
- `docs/durability-and-recovery.md` speaks of a header mismatch when the data
  file is missing. That is what happens for named channels only: for an empty
  channel name both names are empty and the stream counts as healthy, with every
  read failing: `Misnamed.NamelessStreamListed`; exact condition in
  `Recovery.MissingDataFile`.

## Model

| member | source | states |
|---|---|---|
| Channels.PerChannel | libs/log_reader/storage_scanner.cpp:76-155 | after any processes and requests on an empty storage, with day switches, evictions and restarts: getStreams over a range and an unlimited getData for every stream listed under the name of a channel return exactly the records kept of that channel in the range, each as often as it was written; that is, a record is among the answers as often as the log has it for the channel if from <= time <= to, and never otherwise |
| SmallSessions.PerChannelModest | libs/log_reader/storage_scanner.cpp:76-155 | the same with no condition on the files that are left: the limit of each process and 98 bytes for each of its requests stay below 4 GiB together |
| CutQueries.CutPerChannel | libs/log_reader/storage_scanner.cpp:76-155 | the same when each file may be cut anywhere behind every process: the answers for a channel are the records of its log that both of their files still hold to the last byte, of each file the first ones, each as often as it was written; that is, a record is among the answers as often as the log has it for the channel if from <= time <= to, and never otherwise |
| CutQueries.CutRefinement | libs/log_reader/storage_scanner.cpp:76-155 | file by file: a query answers with the first records of its log, in order, as many as both files still hold; a file with one of them in range is listed under its channel; every listed stream is a file of the log that reaches into the range |
| CutQueries.IntactIff | libs/log_reader/stream_reader.cpp:38-64 | record k of a stream counts as held if and only if its index entry, of the width the header in the index file tells, and its data record are there to the last byte |
| CutQueries.NothingCut | libs/log_reader/storage_scanner.cpp:125-155 | where no file has been cut, nothing of the log is missing |
| EndToEnd.ParsedToQueried | libs/log_writer/writer/tracebox_logger.h:19-45 | after any number of server processes, each shut down, and any interleaving of their threads: the streams of a channel answer with exactly the records, both ends of the range included, kept of the requests those servers parsed, which are those of the messages they read, in order, the one a shutdown met excepted; files below 4 GiB, or limits and requests that keep them there |
| EndToEnd.CutParsedToQueried | libs/log_writer/writer/tracebox_logger.h:19-45 | the same with every file cut anywhere between these processes: exactly the part of those records that both of their files still hold |
| EndToEnd.CutLivesAreSessions | libs/log_writer/writer/tracebox_logger.h:19-45 | such processes, with cuts between them, leave what sessions of their parsed requests leave |
| EndToEnd.LifeIsSession | libs/log_writer/writer/tracebox_logger.h:19-45 | however the threads interleave, the files left behind are those of writing every parsed request alone, in the order it was parsed |
| EndToEnd.LifeDelivers | libs/log_writer/writer/tracebox_logger.h:19-45 | the requests of a process are those of the messages it has read, the last one excepted if it came with the shutdown |
| Deliveries.DeliveredParsed | libs/tcp_server/tcp_server.cpp:283-309 | over any interleaving: until kStopping is stored the requests parsed are exactly those of the messages read, in order, the one in hand excepted; after that at most the last message is missing |
| Deliveries.MessageServed | libs/tcp_server/tcp_server.cpp:227-269 | a message that comes in while the service thread is polling a running server is read and parsed by its next six steps |
| Deliveries.WholeLife | libs/log_writer/writer/tracebox_logger.h:38-45 | a logger can be started, read a message, and be destroyed, and the request in it then has been parsed and written |
| Deliveries.CanBeDestroyed | libs/log_writer/writer/tracebox_logger.h:45 | the same from any state a logger can be in |
| Deliveries.CanEnd | libs/log_writer/writer/tracebox_logger.h:45 | from wherever the threads are once kStopping is stored they can bring the destruction to its end |
| Deliveries.DeliveryStep | libs/tcp_server/tcp_server.cpp:283-309 | every event keeps this |
| EndToEnd.Lockstep | libs/log_writer/writer/log_writer.cpp:6-14 | in every interleaving the storage has run exactly the requests handed to it |
| Channels.SessionsRequested | libs/log_writer/storage_management/storage.cpp:23-38 | what is kept is a part of what was requested, channel, time, payload and day included, in the order of the requests |
| Channels.LogRequested | libs/log_writer/storage_management/storage.cpp:23-38 | every kept record comes from a request of its channel |
| Channels.SelectedByName | libs/log_reader/file_reader.h:78 | a kept record is asked for under the name of its own channel only |
| Channels.PooledIsChannel | libs/log_reader/storage_scanner.cpp:125-155 | taken together, the streams of a name hold each record of the channel exactly once |
| Queries.WholeRunRefinement | libs/log_reader/storage_scanner.cpp:76-155 | every kept record of a time range is in a stream listed under its channel; a stream is listed if and only if its day is in range and the log has a record for it up to the end of the range and one from its beginning on; it holds records of one channel, is listed under its name, as healthy, with their number and first and last time, and answers from any index on, unlimited or limited, with exactly its kept records in range, once each, in write order, without errors |
| WholeRun.AnySessions | libs/log_writer/storage_management/storage.cpp:11-38 | over any number of processes, each opening the storage with a limit of its own, files, segments and log stay in step |
| CutSessions.AnyCutSessions | libs/log_writer/storage_management/storage.cpp:11-38 | the same with cuts in between: the storage on cut files does what it does on whole ones, evictions apart, which follow the sizes that are there |
| CutSessions.FollowedStep | libs/log_writer/storage_management/storage.cpp:23-38 | one request does the same to cut files as to whole ones |
| Shadows.ReadyShadow | libs/log_writer/storage_management/folder.cpp:22-40 | a folder write has the same result on both and adds the same bytes to both |
| Shadows.SameFresh | libs/log_writer/storage_management/stream_writer.cpp:72-82 | new files get the same names in both |
| SmallSessions.SessionsSmall | libs/log_writer/storage_management/storage.cpp:11-38 | after such processes every file is below 4 GiB |
| CutSessions.CutsSmall | libs/log_writer/storage_management/storage.cpp:11-38 | after such processes with cuts in between every file is below 4 GiB as well |
| SmallSessions.BalancedRun | libs/log_writer/storage_management/storage.cpp:23-38 | a balance of limit, linked and orphaned bytes that needs no bound on the bytes written into deleted files |
| WholeRun.ConstructedKept | libs/log_writer/storage_management/storage.cpp:11-21 | opening a storage on the files of an earlier process keeps them in step, evicted days apart |
| Queries.CataloguedName | libs/log_reader/file_reader.h:78 | a stream is listed under the name of the channel whose records it holds |
| WholeRun.AnyStorageRun | libs/log_writer/storage_management/storage.cpp:23-38 | over any run, whatever requests come later: files, segments and the log of kept records stay in step |
| WholeRun.Step | libs/log_writer/storage_management/storage.cpp:23-38 | one request keeps them in step: eviction, day switch, opening, writing, rollover, refusal |
| WholeRun.LiveStep | libs/log_writer/storage_management/folder.cpp:22-40 | a request in the folder of an existing day adds its record to exactly one file of that day, or nothing |
| WholeRun.StoredStep | libs/log_writer/storage_management/storage_backend.cpp:79-84 | the same behind a day switch, and in a folder whose directory has been evicted |
| WholeRun.EvictedKept | libs/log_writer/storage_management/storage_backend.cpp:68-77 | eviction takes whole days out of files and log alike and touches nothing else |
| Ledgers.WriteShelved | libs/log_writer/storage_management/stream_writer.cpp:104-179 | a write extends the segment of its channel, or after an offset overflow a new one under an unused name, by exactly that record; all other files of the day stay byte for byte |
| Ledgers.ReadyShelved | libs/log_writer/storage_management/folder.cpp:22-40 | a folder write does this for the channel of the request and keeps all other writers in position |
| Ledgers.StartShelved | libs/log_writer/storage_management/stream_writer.cpp:20-59 | opening files adds one empty segment and nothing else |
| Catalogs.FiledNext | libs/log_writer/storage_management/folder.cpp:22-40 | the log of a file is the record sequence of its segment after every request |
| Catalogs.DeadFolder | libs/log_writer/storage_management/folder.cpp:28-39 | writes into a day that has been evicted reach no linked file |
| Punctuality.NamedPlain | libs/log_writer/storage_management/stream_writer.cpp:72-82 | generated base names of a channel without .idx in it contain no .idx |
| Punctuality.NextPunctual | libs/log_writer/storage_management/storage.cpp:23-38 | with nondecreasing time stamps per channel every file stays sorted and no later than what is still to come |
| Queries.EntryListed | libs/log_reader/storage_scanner.cpp:100-123 | every kept record in range is in a stream that is listed, under its channel |
| Queries.ListedIff | libs/log_reader/idx_file_reader.h:59-62 | a stream of the log is listed if and only if its day is in range, the range is not reversed, and it has a record not behind the range and one not before it |
| Queries.DescribedAs | libs/log_reader/storage_scanner.cpp:100-123 | what a client is told about a stream of the log: its channel, Healthy, the number of its records, and their first and last time |
| Queries.OpensMatchIff | libs/log_reader/idx_file_reader.h:59-62 | the same for the time gate of one file |
| Queries.ListedAnswers | libs/log_reader/storage_scanner.cpp:125-155 | every listed stream is a file of the log, of one channel, and answers with its records |
| Queries.OpensMatches | libs/log_reader/idx_file_reader.h:59-62 | a record in range opens the time gate of its file |
| Queries.NoFailure | libs/log_reader/storage_scanner.cpp:141-153 | on a fully readable stream no read error is reported |
| Queries.BudgetKeepsFilesSmall | libs/log_writer/storage_management/storage.cpp:23-38 | while limit and uncounted headers stay below 4 GiB together, so does every file |
| Losses.EvictedIff | libs/log_writer/storage_management/storage.cpp:25-31 | a day is evicted if and only if free bytes plus all older days are less than the request needs |
| Losses.LostIff | libs/log_writer/storage_management/storage_backend.cpp:79-84 | an acknowledged record goes into deleted files if and only if it belongs to the current folder and that day was missing or had to be evicted for this very request |
| Losses.AcknowledgedIntoNothing | libs/log_writer/storage_management/storage.cpp:23-38 | witness: with a limit of 130 bytes two acknowledged one-byte writes leave no file |
| Losses.RoomyRun | libs/log_writer/storage_management/storage.cpp:23-38 | while the budget covers all requests the log is the sequence of acknowledged records |
| Limits.LinkedAfter | libs/log_writer/storage_management/storage.cpp:23-38 | the bytes in linked files after a request, from the state before it: what the eviction leaves, and headers and record where they reach a file |
| Limits.LimitIff | libs/log_writer/storage_management/storage.cpp:23-38 | the files are within a limit after a request if and only if it will be refused or those bytes are within the limit |
| Limits.LimitOverRuns | libs/log_writer/storage_management/storage.cpp:11-38 | a storage holds to its limit throughout a run if and only if that can be said before each request |
| Limits.WrittenAfloat | libs/log_writer/storage_management/stream_writer.cpp:104-179 | a write through open files reports what its size, record size and offset determine, and nothing goes astray |
| Limits.ReadyGrowth | libs/log_writer/storage_management/folder.cpp:22-40 | a folder grows by exactly the headers and record bytes stated beforehand |
| Losses.LimitExceeded | libs/log_writer/storage_management/folder.cpp:34-39 | witness: with a limit of 260 bytes the files take 369, because opened headers are not counted |
| Recovery.ReadWritten | libs/log_reader/stream_reader.cpp:38-64 | a read of a written record returns exactly that record if both files still hold it completely within their 32-bit lengths, and nothing otherwise |
| Recovery.TruncationRecovery | libs/log_reader/stream_reader.cpp:38-64 | cut both files at any bytes, independently: exactly the records complete in both are read, every other index fails |
| CutQueries.ClippedReads | libs/log_reader/stream_reader.cpp:38-64 | reading such files from the start yields exactly the surviving first records |
| CutQueries.ClippedOrdered | libs/log_reader/idx_file_reader.h:59-62 | an index cut anywhere is still ordered, so its time gate loses nothing |
| CutQueries.ClippedErrors | libs/log_reader/storage_scanner.cpp:125-155 | which error a query on cut files reports: none, an invalid path when less than the header is left of the index, a failed read when index entries are left behind the last record |
| AnyFiles.StatusIs | libs/log_reader/stream_reader.cpp:6-36 | the status of cut files: Empty without a whole index entry, HeadersDifferent for a variable stream of a named channel without a data header, Healthy otherwise |
| Recovery.CompleteIndexRecordsIff | libs/log_reader/idx_file_reader.h:30-43 | which records the cut index file holds completely |
| Recovery.CompleteDataRecordsIff | libs/log_reader/data_file_reader.h:14-59 | which records the cut data file holds completely |
| Recovery.CommittedRecordsStay | libs/log_reader/stream_reader.cpp:38-64 | whatever is appended behind a segment, its records are read under their indices while both files are below 4 GiB |
| Recovery.FixedSegmentReadableIff | libs/log_writer/storage_management/stream_writer.cpp:115-127 | a fixed-size file, which is never rolled over, is readable throughout if and only if it is below 4 GiB |
| Recovery.RoundTrip | libs/log_reader/stream_reader.cpp:38-64 | an intact segment reads back as the records written, empty payloads included |
| Recovery.IntactCount | libs/log_reader/idx_file_reader.h:30-43 | the floor division counts exactly the written records |
| Recovery.CountIs | libs/log_reader/idx_file_reader.h:30-43 | index k is below the record count exactly when the file reaches past record k |
| Recovery.IndexEntrySurvives | libs/log_reader/idx_file_reader.h:71-151 | time, offset and fixed payload read from a surviving index entry are the written ones |
| Recovery.DataRecordSurvives | libs/log_reader/data_file_reader.h:14-59 | a data record is delivered when it is there to its last byte and refused otherwise, and the stream does not break |
| AnyFiles.DataAtIff | libs/log_reader/data_file_reader.h:14-59 | on any file with a header: a record is delivered at an offset if and only if the file holds data, the offset is behind the header, time, size and bytes stand there, and the record ends within the file |
| AnyFiles.WrongKind | libs/log_reader/idx_file_reader.h:71-94 | a file of another kind gives no time stamp and no record |
| AnyFiles.ZeroMeansError | libs/log_reader/stream_reader.cpp:46-58 | a time stamp or an offset of 0 counts as a failed read |
| AnyFiles.ValidIndexIff | libs/log_reader/idx_file_reader.h:52-56 | which files are taken for an index, by the fields of their header and their length |
| AnyFiles.ResolvesIff | libs/log_reader/storage_scanner.cpp:39-69 | which identifiers lead to a stream |
| Recovery.PowerLossBetweenWrites | libs/log_writer/storage_management/stream_writer.cpp:151-174 | a power loss between data and index write loses that record only |
| Recovery.SegmentLengths | libs/log_writer/storage_management/stream_writer.cpp:138-174 | file lengths of a segment; both files of a variable one are below 4 GiB |
| Recovery.MissingDataFile | libs/log_reader/stream_reader.cpp:28-35 | without its data file a variable stream yields nothing, and counts as damaged unless its channel name is empty |
| Misnamed.NamelessStreamListed | libs/log_reader/stream_reader.cpp:28-35 | witness: one acknowledged record under an empty channel name; without its data file the stream is healthy and matches its time, and the record cannot be read |
| WriterRuns.AnyRun | libs/log_writer/storage_management/stream_writer.cpp:104-179 | over any run of writes, each of which may fail anywhere: the invariant holds and the volumes hold exactly the acknowledged records in order |
| WriterRuns.OffsetInvariant | libs/log_writer/storage_management/stream_writer.cpp:138-174 | offset_ is the data file length, index entry k the sum of the earlier data records, both files below 4 GiB, nothing has wrapped |
| WriterRuns.InvStep | libs/log_writer/storage_management/stream_writer.cpp:104-179 | every single call keeps the invariant |
| WriterRuns.RecordedStep | libs/log_writer/storage_management/stream_writer.cpp:104-179 | every single call adds its record exactly when it returns a positive number |
| WriterRuns.PlainStep | libs/log_writer/storage_management/stream_writer.cpp:104-179 | a call without rollover: an acknowledged record is appended, a failing call leaves the segment as it was |
| WriterRuns.RollStep | libs/log_writer/storage_management/stream_writer.cpp:142-150 | a call with rollover: existing files stay, the record starts a new volume |
| WriterRuns.TornKeeps | libs/log_writer/storage_management/stream_writer.cpp:154-172 | torn writes leave all committed records in place |
| WriterRuns.ReopenStarts | libs/log_writer/storage_management/stream_writer.cpp:20-59 | reopening starts an empty segment under a name nobody used and leaves other files alone |
| WriterRuns.VariableExtends | libs/log_writer/storage_management/stream_writer.cpp:151-176 | data record, index entry and offset together extend the segment by one record |
| WriterRuns.FixedExtends | libs/log_writer/storage_management/stream_writer.cpp:115-127 | time and payload together extend a fixed-size segment by one record |
| WriterRuns.AcknowledgedReadable | libs/log_reader/stream_reader.cpp:38-64 | an acknowledged record is read back under its index while the files of its volume are below 4 GiB |
| WriterRuns.CommittedStable | libs/log_reader/stream_reader.cpp:38-64 | after any later writes, successful or failing, a read of a recorded index yields that record or nothing, and the record if and only if both files cover it within 32-bit lengths |
| Leftovers.OnlyRequestedRead | libs/log_reader/stream_reader.cpp:38-64 | over any run from an opening on, with failures anywhere, every record anybody can read was handed to the writer: acknowledged, or in a call that failed |
| Leftovers.NothingInvented | libs/log_reader/stream_reader.cpp:38-64 | any index of any volume reads its recorded record, or one behind them the record on which its index stream failed, or nothing |
| Leftovers.AccountedRun | libs/log_writer/storage_management/stream_writer.cpp:104-179 | over any run every index file ends with its recorded entries, or within the entry of the one record on which its stream failed |
| Overgrowth.FailingRun | libs/log_writer/storage_management/stream_writer.cpp:154-169 | after the index stream has failed, writes keep failing while the data file grows unchecked |
| Overgrowth.IndexFails | libs/log_writer/storage_management/stream_writer.cpp:154-172 | one write whose index entry fails takes a sound writer to such a state |
| Overgrowth.AcknowledgedCanBeLost | libs/log_reader/file_reader.h:28-37 | from such a state a run of failing writes makes an acknowledged record unreadable, once the data file length wraps to 0 |
| Overgrowth.OpenedStreamLoses | libs/log_writer/storage_management/stream_writer.cpp:104-179 | witness from the opening on: a record is acknowledged and readable, one index write fails, later writes fail, and the record is unreadable |
| Rollover.RolloverRefinement | libs/log_writer/storage_management/stream_writer.cpp:134-177 | any successful variable-length writes, any number of overflows: reading all files back in creation order gives the written records |
| Rollover.FaultFreeRun | libs/log_writer/storage_management/stream_writer.cpp:104-179 | on a device that does not fail every variable-length write succeeds |
| Rollover.RollsIff | libs/log_writer/storage_management/stream_writer.cpp:138-150 | new files are started if and only if 24 bytes, the payload and the length of the data file together go beyond 0xFFFFFFFF |
| Rollover.WriteRefusedIff | libs/log_writer/storage_management/stream_writer.cpp:104-137 | which writes are refused on a device that never fails, with -EINVAL, and that they change nothing |
| Rollover.ClosedRefuses | libs/log_writer/storage_management/stream_writer.cpp:61-70 | a writer whose files are closed writes nothing |
| WriterSpec.NextNamesDiffer | libs/log_writer/storage_management/stream_writer.cpp:20-59 | a reopened variable stream has two different open files |
| WriterSpec.WrittenTidy | libs/log_writer/storage_management/stream_writer.cpp:104-179 | a writer keeps its index handle on an .idx and its data handle on a .data file |
| WriterSpec.Int32 | libs/log_writer/storage_management/stream_writer.cpp:127 | narrowing of a result to int |
| FreshNames.TakenBound | libs/log_writer/storage_management/stream_writer.cpp:24-29 | k taken candidate names are k different files |
| FreshNames.FreshSuffix | libs/log_writer/storage_management/stream_writer.cpp:24-29 | the suffix search ends, within as many probes as there are files, on a base with neither file present, and none before it was free |
| FreshNames.FreshSuffixIsFirst | libs/log_writer/storage_management/stream_writer.cpp:24-29 | the loop finds exactly that name |
| FreshNames.CandidatesDiffer | libs/log_writer/storage_management/stream_writer.cpp:28 | different suffixes give different names |
| FreshNames.DecimalParses | libs/log_writer/storage_management/stream_writer.cpp:28 | std::to_string is injective |
| FileNames.PairedNameIff | libs/log_reader/stream_reader.cpp:14-30 | the reader finds the data file of a writer if and only if the base name does not contain .idx |
| Misnamed.NextBasePlainIff | libs/log_writer/storage_management/stream_writer.cpp:72-82 | the base name of a stream contains .idx if and only if its channel name does |
| Misnamed.DottedChannelUnreadable | libs/log_reader/stream_reader.cpp:14-30 | witness: with .idx in the channel name an acknowledged record, complete in its two files, cannot be read through the pairing |
| FileNames.NamesDiffer | libs/log_writer/storage_management/stream_writer.cpp:30-44 | index and data names never collide |
| FileNames.FindFrom | libs/log_reader/stream_reader.cpp:15 | std::string::find returns the first occurrence |
| WriterHistories.WriteAll | libs/log_writer/storage_management/stream_writer.cpp:104-179 | a writer asked to write any records goes through such a run, whatever fails, and stays ready for more |
| StreamWriters.StreamWriter.constructor | libs/log_writer/storage_management/stream_writer.cpp:14-18 | a writer without files |
| StreamWriters.StreamWriter.OpenFile | libs/log_writer/storage_management/stream_writer.cpp:14-18 | takes name and record size and opens files, failures included |
| StreamWriters.StreamWriter.FreshName | libs/log_writer/storage_management/stream_writer.cpp:22-29 | the suffix loop ends on the first free name |
| StreamWriters.StreamWriter.WriteHeader | libs/log_writer/storage_management/stream_writer.cpp:84-102 | writes and flushes the 49 header bytes, or reports an error |
| StreamWriters.StreamWriter.StartFile | libs/log_writer/storage_management/stream_writer.cpp:30-40 | opens one file and writes its header |
| StreamWriters.StreamWriter.CloseFile | libs/log_writer/storage_management/stream_writer.cpp:61-70 | closes both handles and changes no file |
| StreamWriters.StreamWriter.ReopenFile | libs/log_writer/storage_management/stream_writer.cpp:20-59 | on success the specified new files; on failure no open index, no change to existing files, and handles on an .idx and a .data file all the same |
| StreamWriters.StreamWriter.WriteFixed | libs/log_writer/storage_management/stream_writer.cpp:115-127 | time and payload of exactly the record size, or a beginning of this index record and an error |
| StreamWriters.StreamWriter.WriteData | libs/log_writer/storage_management/stream_writer.cpp:154-161 | time stamp, size and payload of a data record, or a beginning of it and an error |
| StreamWriters.StreamWriter.WriteIndex | libs/log_writer/storage_management/stream_writer.cpp:166-172 | time stamp and offset, or a beginning of this entry and an error |
| StreamWriters.StreamWriter.WriteVariable | libs/log_writer/storage_management/stream_writer.cpp:151-174 | data record first, index entry second, offset last |
| StreamWriters.StreamWriter.MakeRoom | libs/log_writer/storage_management/stream_writer.cpp:138-150 | rolls over exactly when the 32-bit offset would overflow |
| StreamWriters.StreamWriter.WriteOrRoll | libs/log_writer/storage_management/stream_writer.cpp:134-177 | the variable-length branch |
| StreamWriters.StreamWriter.Write | libs/log_writer/storage_management/stream_writer.cpp:104-179 | one possible step of a device that may fail; exactly the specified one when the result is positive or the device reliable |
| FileSystems.FileSystem.Open | libs/log_writer/storage_management/file_io.h:27-32 | append mode: creates a missing file, keeps an existing one |
| FileSystems.FileSystem.Write | libs/log_writer/storage_management/file_io.h:34-37 | appends all bytes, or any part of them and the stream stays bad |
| FileSystems.FileSystem.Flush | libs/log_writer/storage_management/file_io.h:39-42 | fails on a bad stream |
| FileSystems.AppendedKeeps | libs/log_writer/storage_management/file_io.h:34-37 | an append shows in its own file while that is linked, and nowhere else |
| Readers.FileReader.constructor | libs/log_reader/file_reader.h:64-73 | 32-bit length and header of arbitrary content |
| Readers.FileReader.Name | libs/log_reader/file_reader.h:78 | the channel name in the header |
| Readers.IndexFileReader.constructor | libs/log_reader/idx_file_reader.h:30-43 | record count, first and last time stamp |
| Readers.IndexFileReader.SelectRecord | libs/log_reader/idx_file_reader.h:15-27 | positions the stream at a record |
| Readers.IndexFileReader.TimeOf | libs/log_reader/idx_file_reader.h:71-94 | the time stamp of a record, 0 on any error |
| Readers.IndexFileReader.ReadPayload | libs/log_reader/idx_file_reader.h:97-127 | the payload of a fixed-size record |
| Readers.IndexFileReader.ReadOffset | libs/log_reader/idx_file_reader.h:130-151 | the data offset of a record, 0 on any error |
| Readers.DataFileReader.Read | libs/log_reader/data_file_reader.h:14-59 | bounds checks, record decoding and the failure bit of the stream, on arbitrary content |
| Readers.StreamReader.constructor | libs/log_reader/stream_reader.cpp:6-36 | the status of a stream from its two files |
| Readers.StreamReader.RangeGate | libs/log_reader/stream_reader.h:29-32 | the time gate of an opened stream depends on the bytes of its two files alone |
| Readers.StreamReader.Read | libs/log_reader/stream_reader.cpp:38-64 | one read, including what it does to the stream |
| ReaderSpec.Size32 | libs/log_reader/file_reader.h:28-37 | a file length narrowed to 32 bits |
| ReaderSpec.RecordInFile | libs/log_reader/idx_file_reader.h:15-27 | a record below the count lies within the file |
| ReaderSpec.NeverBroken | libs/log_reader/data_file_reader.h:51-58 | on a data file below 4 GiB no read breaks the stream, so reads do not depend on each other |
| ReaderSpec.NothingBeyond | libs/log_reader/stream_reader.cpp:42-45 | indices beyond the count read nothing |
| Layout.NamesTell | libs/log_reader/file_reader.h:78 | names below 32 bytes without zero bytes are read back unchanged, so they tell channels apart |
| Layout.HeaderRoundTrip | libs/data_types.h:15-31 | the packed header decodes to what was encoded |
| Formats.OpenedFiles | libs/log_writer/storage_management/stream_writer.cpp:84-102 | what the first 49 bytes of new files hold: header size, creation time, record size, version 1.0, kind and name |
| Formats.SampleFiles | libs/data_types.h:15-50 | a variable and a fixed-size stream with one record, byte by byte |
| Formats.FrameBytes | libs/tcp_server/tcp_socket.h:44-56 | a frame byte by byte |
| Formats.FirstName | libs/log_writer/storage_management/stream_writer.cpp:72-82 | the name of a first file |
| Formats.SecondName | libs/log_writer/storage_management/stream_writer.cpp:20-30 | the name of a second one under the same clock reading |
| Bytes.LoadStore | libs/data_types.h:40-50 | a stored little-endian field loads as the number modulo its width |
| Segments.ExtendBytes | libs/log_writer/storage_management/stream_writer.cpp:151-174 | one more record is one more data record and one more index entry behind the old bytes |
| Segments.DataRecordAt | libs/log_reader/data_file_reader.h:29-56 | the k-th data record lies right behind the first k |
| Segments.IndexRecordAt | libs/log_reader/idx_file_reader.h:15-27 | the k-th index record lies behind k records of the same width |
| Retention.Conservation | libs/log_writer/storage_management/storage.cpp:25-36 | available bytes + bytes in linked files + bytes written into deleted ones = limit + headers not counted, kept by every write |
| Retention.BudgetOverRuns | libs/log_writer/storage_management/storage.cpp:23-38 | the same over any run; the files exceed the limit by at most the uncounted headers, which are at most two for each request |
| Retention.NoUnderflow | libs/log_writer/storage_management/storage.cpp:34-36 | the subtraction of the result never wraps, and no result exceeds the reservation |
| Retention.WrittenBound | libs/log_writer/storage_management/stream_writer.cpp:104-179 | no path of a write reports more than maxRecordSize |
| Retention.WrittenBytes | libs/log_writer/storage_management/stream_writer.cpp:104-179 | a write reports exactly the bytes it adds |
| Retention.FolderBytes | libs/log_writer/storage_management/folder.cpp:28-39 | a folder write adds exactly its result and the dropped header bytes |
| Retention.EvictedBytes | libs/log_writer/storage_management/storage_backend.cpp:56-66 | eviction gives back exactly the bytes of the files it deletes |
| Retention.EvictionMinimal | libs/log_writer/storage_management/storage.cpp:25-31 | eviction removes the shortest ascending prefix of days that makes room, or all days |
| Retention.RefusedIff | libs/log_writer/storage_management/storage.cpp:25-31 | 0 is returned if and only if deleting every day would not make room, and then every day is gone |
| Retention.NeverZero | libs/log_writer/storage_management/folder.cpp:22-40 | a folder write never returns 0 |
| StorageSpec.Oldest | libs/log_writer/storage_management/storage_backend.cpp:38-54 | the smallest day below the bound, or the bound |
| Storages.Storage.constructor | libs/log_writer/storage_management/storage.cpp:11-21 | evicts oldest days until what is there fits, and no more; leaves the balance exact |
| Storages.Storage.RemoveExcess | libs/log_writer/storage_management/storage.cpp:15-19 | the loop of the constructor |
| Storages.Storage.MakeRoom | libs/log_writer/storage_management/storage.cpp:25-31 | the loop of write |
| Storages.Storage.Deliver | libs/log_writer/storage_management/storage.cpp:33-37 | the write and its cost |
| Storages.Storage.Charge | libs/log_writer/storage_management/storage.cpp:34-37 | the counter after a write |
| Storages.Storage.Write | libs/log_writer/storage_management/storage.cpp:23-38 | refines the specified storage step |
| Storages.FilesystemStorageBackend.DirectorySize | libs/log_writer/storage_management/storage_backend.cpp:26-32 | the bytes of one directory, whatever order its files come in |
| Storages.FilesystemStorageBackend.UsedBytes | libs/log_writer/storage_management/storage_backend.cpp:18-36 | the bytes of all linked files |
| Storages.FilesystemStorageBackend.FindOldest | libs/log_writer/storage_management/storage_backend.cpp:38-54 | the oldest day, whatever order directories come in |
| Storages.FilesystemStorageBackend.DeleteFolder | libs/log_writer/storage_management/storage_backend.cpp:56-66 | frees exactly the bytes of the removed files |
| Storages.FilesystemStorageBackend.RemoveOldest | libs/log_writer/storage_management/storage_backend.cpp:68-77 | removes the oldest day, or reports that there is none |
| Storages.FilesystemStorageBackend.Write | libs/log_writer/storage_management/storage_backend.cpp:79-84 | a new folder when the day changes |
| Storages.Folder.MakeReady | libs/log_writer/storage_management/folder.cpp:8-18 | creates the day directory on first use |
| Storages.Folder.OpenChannel | libs/log_writer/storage_management/folder.cpp:29-38 | opens the files of a new channel and drops the header bytes |
| Storages.Folder.WriteChannel | libs/log_writer/storage_management/folder.cpp:39 | the write itself |
| Storages.Folder.Write | libs/log_writer/storage_management/folder.cpp:22-40 | refines the specified folder step |
| ScannerSpec.GateLosesNothing | libs/log_reader/idx_file_reader.h:59-62 | on an ordered index a closed time gate means no readable record is in range |
| ScannerSpec.QueryIs | libs/log_reader/storage_scanner.cpp:125-155 | a query returns the first max in-range records among the readable ones from start_idx on |
| ScannerSpec.CollectIs | libs/log_reader/storage_scanner.cpp:141-153 | the same for the reading loop alone |
| ScannerSpec.FilterCounts | libs/log_reader/storage_scanner.cpp:147-148 | a record is kept as often as it is there if from <= time <= to, and dropped otherwise |
| ScannerSpec.ErrorsAre | libs/log_reader/storage_scanner.cpp:125-155 | a query reports an invalid path exactly when the identifier leads to no index file, and a failed read exactly when, behind an open gate, it comes across a record that cannot be read before it has found max records |
| ScannerSpec.FailedIff | libs/log_reader/storage_scanner.cpp:141-153 | the same for the reading loop |
| ScannerSpec.PagesConcatenate | libs/log_reader/storage_scanner.cpp:125-155 | pages at 0, m, 2m, ... of a fully readable stream concatenate to the whole stream |
| ScannerSpec.FullReadSkips | libs/log_reader/storage_scanner.cpp:138-153 | starting at a later index skips exactly the earlier records |
| Scanners.StorageScanner.ResolveIndexPath | libs/log_reader/storage_scanner.cpp:39-69 | accepts exactly linked .idx files with a valid index header |
| Scanners.StorageScanner.GetStreams | libs/log_reader/storage_scanner.cpp:76-98 | lists every matching stream of the day range once, and nothing else |
| Scanners.StorageScanner.ExtractStreams | libs/log_reader/storage_scanner.cpp:100-123 | the same for one day |
| Scanners.StorageScanner.Inspect | libs/log_reader/storage_scanner.cpp:105-120 | one file |
| Scanners.StorageScanner.GetData | libs/log_reader/storage_scanner.cpp:125-155 | computes the specified answer |
| Scanners.StorageScanner.ReadLoop | libs/log_reader/storage_scanner.cpp:141-153 | the reading loop, error flag included |
| Ingestion.StepKeeps | libs/log_writer/writer/log_writer.cpp:6-42 | every step of every thread keeps: accepted = written + in flight + queue, mutual exclusion, no lost wakeup, orderly stop |
| Ingestion.AnyInterleaving | libs/log_writer/writer/log_writer.cpp:6-42 | so does every interleaving |
| Ingestion.FifoKept | libs/log_writer/writer/log_writer.cpp:32-42 | exactly once, in the order of admission |
| Ingestion.WakeupKept | libs/log_writer/writer/log_writer.h:23-32 | whenever the worker sleeps with something to do, some thread still owes a notify_one |
| Ingestion.ClosedForGood | libs/log_writer/writer/log_writer.cpp:32-42 | nothing is accepted once stopping_ is set |
| Ingestion.StopReturnsDrained | libs/log_writer/writer/log_writer.cpp:21-30 | when a stop returns, and ever after, everything accepted has been written once, in order |
| Ingestion.DrainMeasure | libs/log_writer/writer/log_writer.h:23-32 | once stopping_ is set every worker step decreases a measure on the queue that no other step raises |
| Ingestion.NeverStuck | libs/log_writer/writer/log_writer.cpp:21-30 | until stop is through some thread can move, without spurious wakeups |
| Ingestion.StopTerminates | libs/log_writer/writer/log_writer.cpp:21-30 | without new calls every run from there ends within a computed number of steps, with everything written |
| LogWriters.LogWriter.AddSection | libs/log_writer/writer/log_writer.cpp:33-39 | the critical section of add is one step of the protocol |
| LogWriters.LogWriter.StopSection | libs/log_writer/writer/log_writer.cpp:22-25 | so is that of stop |
| LogWriters.LogWriter.WaitSection | libs/log_writer/writer/log_writer.h:23-32 | and that of wait: sleep, leave, or take the front request |
| LogWriters.LogWriter.Turn | libs/log_writer/writer/log_writer.cpp:7-13 | one turn of the worker: the front request is written to the storage, or the worker ends, or sleeps |
| LogWriters.LogWriter.Deliver | libs/log_writer/writer/log_writer.cpp:12 | the write itself |
| LogWriters.LogWriter.WritingThread | libs/log_writer/writer/log_writer.cpp:6-14 | left alone, the worker runs the queue on the storage in order, then ends if stopping, and sleeps otherwise |
| LogWriters.LogWriter.Add | libs/log_writer/writer/log_writer.cpp:32-42 | appends to the queue, or refuses after stop |
| LogWriters.LogWriter.Stop | libs/log_writer/writer/log_writer.cpp:21-30 | left alone with the worker, the storage has run the whole queue in order |
| Shutdown.CleanShutdown | libs/log_writer/writer/tracebox_logger.h:19-45 | in every interleaving of service thread, worker and destructor: no add is refused, at most one callback starts after kStopping is stored, none can start once the server has stopped, and every parsed request has been written before destruction ends |
| Shutdown.AnyShutdown | libs/log_writer/writer/tracebox_logger.h:45 | the invariant behind it, over all runs |
| Shutdown.WriterAdmits | libs/log_writer/writer/tracebox_logger.h:27-35 | no callback meets a stopped writer |
| Shutdown.ServiceKeeps | libs/tcp_server/tcp_server.cpp:283-309 | steps of the service thread |
| Shutdown.DestroyKeeps | libs/tcp_server/tcp_server.cpp:137-164 | steps of the destroying thread |
| Shutdown.ShutdownMoves | libs/log_writer/writer/tracebox_logger.h:45 | once kStopping is stored some thread can move until the logger is destroyed, without spurious wake-ups |
| Shutdown.ShutdownEnds | libs/log_writer/writer/tracebox_logger.h:45 | the events of a shutdown are bounded, spurious wake-ups apart, and where nothing can move the logger is destroyed and everything parsed is written |
| Shutdown.EventEffort | libs/log_writer/writer/tracebox_logger.h:45 | every event but a spurious wake-up decreases a measure on all threads and the queue |
| TraceboxLoggers.TraceboxLogger.constructor | libs/log_writer/writer/tracebox_logger.h:38-43 | writer first, then the server, started |
| TraceboxLoggers.TraceboxLogger.HandleLogRequest | libs/log_writer/writer/tracebox_logger.h:27-35 | parsed requests are queued, others ignored, the answer is empty |
| TraceboxLoggers.TraceboxLogger.Destroy | libs/log_writer/writer/tracebox_logger.h:45 | no descriptor of the server is left open and the storage has run the queue in order |
| Servers.AnyHistory | libs/tcp_server/tcp_server.cpp:64-281 | over every history of start, stop, event batches and loop exits with failures anywhere, the open descriptors are the foreign ones and the duplicate-free ones of the server; after a stop none of its own is open |
| Servers.Server.constructor | libs/tcp_server/tcp_server.cpp:54-55 | owns nothing |
| Servers.Server.Start | libs/tcp_server/tcp_server.cpp:64-135 | succeeds if and only if it is stopped and all its 15 steps succeed; the port is the one this getsockname told if the first ten did, and the old one otherwise; after any failure nothing stays open; a started server watches exactly its wake-up and its listening descriptor, and no client is there |
| Servers.Server.Open | libs/tcp_server/tcp_server.cpp:71-124 | exactly when the startup steps succeed, and exactly when they reach the assignment of the port; the descriptors owned at each exit; after a success both are watched |
| Servers.Server.Bind | libs/tcp_server/tcp_server.cpp:71-117 | the steps up to getsockname, each of which may fail |
| Servers.Server.Configure | libs/tcp_server/tcp_server.cpp:84-117 | the steps on the listening socket |
| Servers.FailedStartLeavesPort | libs/tcp_server/tcp_server.cpp:118-124 | witness: a start that fails when descriptors are registered leaves a stopped server that tells a port |
| Servers.Server.OneBatch | libs/tcp_server/tcp_server.cpp:225-270 | one turn of the loop, which ends at a wake-up, a server seen stopping, or an exception, and not otherwise; behind the last one no client and no listening socket is left |
| Servers.Server.Stop | libs/tcp_server/tcp_server.cpp:137-164 | joins, closes everything, and is stopped and unbound |
| Servers.Server.RegisterFd | libs/tcp_server/tcp_server.cpp:166-184 | a descriptor that has been registered is watched, nothing else changes in what is watched, and three calls decide about a client; a just accepted one becomes the last client, or stays the one extra descriptor |
| Servers.Server.UnregisterFd | libs/tcp_server/tcp_server.cpp:186-195 | closes one client, which is no longer watched, and removes it from the list, whose order stays |
| Servers.Server.IndexOf | libs/tcp_server/tcp_server.cpp:190 | std::find |
| Servers.Server.CloseClientFds | libs/tcp_server/tcp_server.cpp:197-201 | no client is left |
| Servers.Server.CloseStartupDescriptors | libs/tcp_server/tcp_server.cpp:203-220 | nothing is left |
| Servers.Server.Accept | libs/tcp_server/tcp_server.cpp:246-261 | a new client joins, as the last one and watched, if and only if the four calls succeed and the server is still seen running; otherwise its descriptor is closed again |
| Servers.Server.HandleEvents | libs/tcp_server/tcp_server.cpp:235-269 | one batch of distinct watched descriptors: the event at which the loop ends, and before it exactly the clients that hung up or failed are closed, once each, the others stay in order, and a new one joins if it is admitted; while listening, the watched descriptors stay the wake-up, the listening one and the clients |
| Servers.Server.HandleEvent | libs/tcp_server/tcp_server.cpp:235-269 | one event |
| Servers.Server.Run | libs/tcp_server/tcp_server.cpp:222-281 | leaves no client and no listening socket |
| Servers.Server.LoopEnds | libs/tcp_server/tcp_server.cpp:271-280 | the loop may end long before stop |
| Servers.ErasedAt | libs/tcp_server/tcp_server.cpp:190-193 | erasing one element of a duplicate-free list removes exactly that descriptor |
| Servers.Kernel.Close | libs/tcp_server/tcp_server.cpp:194 | can only be called on an open descriptor |
| Servers.Kernel.Wait | libs/tcp_server/tcp_server.cpp:227-228 | distinct watched descriptors |
| Framing.FramingRoundTrip | libs/tcp_server/tcp_socket.h:44-122 | under every schedule of positive partial transfers and EINTR on both ends, n reads return the n payloads sent, in order |
| Framing.CutConnection | libs/tcp_server/tcp_socket.h:44-73 | under any schedule the wire carries the frames of the payloads whose sends succeeded and at most a strict prefix of the next |
| Framing.CutReadIsEmpty | libs/tcp_server/tcp_socket.h:82-122 | a read of a strict prefix of a frame is empty, under any schedule |
| Framing.ReadAfterCut | libs/tcp_server/tcp_socket.h:82-122 | a reader of a cut connection gets exactly the payloads sent, then an empty result |
| Framing.LivelyFrame | libs/tcp_server/tcp_socket.h:82-122 | one frame, whatever follows it |
| Framing.SendingBound | libs/tcp_server/tcp_socket.h:56-72 | a send succeeds if and only if all bytes went out |
| Framing.SendingStops | libs/tcp_server/tcp_socket.h:56-72 | a send uses up the calls to the first error other than EINTR, or the first that moves nothing, and moves exactly what the calls before it let through |
| Framing.ReceivingStops | libs/tcp_server/tcp_socket.h:86-119 | the same for a receive, which also stops where nothing comes in |
| Framing.ShortReceive | libs/tcp_server/tcp_socket.h:86-119 | received and remaining bytes are the input |
| Framing.Connection.Send | libs/tcp_server/tcp_socket.h:58-59 | one send call |
| Framing.Connection.Recv | libs/tcp_server/tcp_socket.h:89-91 | one recv call |
| Framing.Connection.SendData | libs/tcp_server/tcp_socket.h:44-73 | length first, then the payload, through partial and interrupted calls |
| Framing.Connection.Load | libs/tcp_server/tcp_socket.h:88-119 | the loop that loads the header and again the payload |
| Framing.Connection.ReadData | libs/tcp_server/tcp_socket.h:82-122 | one frame, or empty on any error |
| Combiner.Combine | apps/get_can.cpp:72-80 | combining streams that are each sorted by time: for each channel and record, one piece with its time, its data and the number of its channel for each time it came in, if its second is in range and not 0, and none otherwise; nothing else; one batch for each second, in ascending order; the count; channels numbered in order of appearance; in time order if and only if the records of each second come in that order |
| Combiner.SaveOutput | libs/log_client/streams_combiner.cpp:53-60 | the output is the accepted pieces as a multiset, streams sorted by second keep their order, and the whole is in time order exactly under the condition of OutputInTimeIff |
| Combiner.OutputInTimeIff | libs/log_client/streams_combiner.h:40-41 | the output is in the order of its time stamps if and only if the accepted pieces of each second came in that order |
| Combiner.CombinedOutOfTime | apps/get_can.cpp:72-80 | witness: combining two sorted streams with one record each, in one second, gives batches against the order of time, data and stream numbers intact |
| Combiner.SortedLosesNothing | libs/log_client/streams_combiner.cpp:30-38 | on input sorted by time every record of the range is accepted, except in second 0 |
| Combiner.PickedUpTo | libs/log_client/streams_combiner.cpp:29-37 | on any other stream the records of the range up to the first one beyond it are accepted |
| Combiner.WithinCounts | libs/log_client/streams_combiner.cpp:43-47 | each record of the range gives one piece with its time, its data and the number of its stream |
| Combiner.AllWithinCounts | libs/log_client/streams_combiner.cpp:20-51 | the same over all streams, by channel |
| Combiner.NumberingIs | libs/log_client/streams_combiner.cpp:22-26 | the number of a channel is how many channels appeared before it |
| Combiner.AddStreams | apps/get_can.cpp:72-76 | one addRecords call for each stream |
| Combiner.Conserved | libs/log_client/streams_combiner.cpp:53-60 | grouping by second loses and doubles nothing |
| Combiner.StreamOrderKept | libs/log_client/streams_combiner.cpp:53-60 | each stream keeps its order |
| Combiner.NumberedNext | libs/log_client/streams_combiner.cpp:22-26 | stream indices stay a bijection onto 0..n-1 |
| Combiner.Flushed | libs/log_client/streams_combiner.cpp:40-44 | storing the collected second and starting another loses nothing |
| Combiner.Collected | libs/log_client/streams_combiner.cpp:45-50 | collecting a record loses nothing |
| Combiner.StreamsCombiner.constructor | libs/log_client/streams_combiner.h:56-57 | an empty combiner over a range of seconds |
| Combiner.StreamsCombiner.StoreData | libs/log_client/streams_combiner.cpp:8-18 | appends to the bucket of a second; second 0 and empty data are dropped |
| Combiner.StreamsCombiner.AddRecords | libs/log_client/streams_combiner.cpp:20-51 | accepts exactly the selected records, distributed to their seconds, whatever their order |
| Combiner.StreamsCombiner.Save | libs/log_client/streams_combiner.cpp:53-60 | one batch per second in ascending order, and the count |

## Left out

- Failing devices below a whole storage: `Storages` and everything built on it
  assume file operations that succeed. What failures do is proved for the single
  stream writer.
- WholeRunRefinement: asks for files below 4 GiB, because the code does not limit
  fixed-size files and cannot read longer ones; `SmallSessions` has a condition on
  limits and requests instead.
- CutRefinement: every file may lose its end, names and directories stay; a
  crash in the middle of opening two files, or of deleting a directory, is left
  out.
- Real file handles, buffering, flush timing and fsync: a file is a byte
  sequence, a crash a prefix of it; whether a write flushes is arbitrary.
- Interleaving of a reader with a running writer: queries see a snapshot.
- The calendar, `localtime` and floating-point seconds: arbitrary functions.
- Protobuf: requests are plain records and parsing is an arbitrary partial
  function.
- `TcpClient`, `LogClient`, `LogReadClient`, the facade in
  `src/tracebox_api.cpp`, `AscWriter` and `apps/`: thin wrappers and formatting.
- ResolveIndexPath: leaves out path confinement and the rejection of separators;
  identifiers are a day and a file name. `.idx` in the path of the storage root
  is left out with it.
- FileSystem.Open: opens any name in an existing directory, while a channel name
  with a slash makes it fail in a directory that does not exist.
- Storage.constructor: asks for directories named after canonical days, as the
  program itself makes them; with others its loop need not end.
- RemoveExcess: asks for the same.
- WritingThread: with no other thread taking a step; the interleavings are in
  `Ingestion`, and with the storage in `EndToEnd`.
- LogWriter.Stop: one caller, with the worker between its critical sections;
  other callers and interleavings are in `Ingestion`.
- TraceboxLogger.Destroy: sequential; the interleavings are in `Shutdown`, and
  with the storage in `EndToEnd`.
- Files put into the storage by anybody else: the whole-run results start from
  an empty storage. `WholeRun.AnySessions` starts from any catalogued one.
- Channel names with a zero byte, and names of 32 bytes or more: the name array
  then has no terminator and the program reads on behind it; the model stops at
  32 bytes.
- Widths of counters that cannot overflow here: file name suffixes (at most the
  number of files of a directory), `available_bytes_` going up, stream numbers.
- Byte order other than little-endian: the structures are dumped in host order.
- Allocation failures, among them an exception of `push_back` in `registerFd`,
  which would leave the accepted descriptor open until the process ends.
- Timeouts, epoll modes and readiness: an event batch is any list of distinct
  watched descriptors, and a run of the event loop any finite number of batches.
- A server whose start has failed is not part of `Shutdown`; there is no service
  thread then. `TraceboxLoggers` covers it.
- Two threads that destroy a `TraceboxLogger`, or join the worker, at the same
  time.
- `OneSecondData::sort`: nothing calls it; `Combiner.OutputInTimeIff` says when
  the output is in order without it.
- `FileReader::log_error` texts: the model keeps whether an error was reported,
  not its words.
