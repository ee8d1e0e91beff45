# Interpol, verified

Interpol is an MPI tracer. C wrappers record every MPI call of a process, a Rust back-end keeps the records in a log
behind a mutex, `MPI_Finalize` writes each rank's log to a file of its own, and rank 0 then reads all the files, sorts
the events by time stamp and writes one merged trace. This project models that path from the call to the merged trace
and proves what the trace can be relied upon for.

- **Nothing is lost, repeated or read early** (`Protocol`, `RankInvariant`, `SystemInvariant`, `Safety`,
  `Interleaving`, `EndToEnd`). A traced program is a state machine with any number of ranks, each with any number of
  threads, and steps in any interleaving: reading the clock, taking the lock, reserving, pushing onto the log as it was
  found, the two barriers of `MPI_Finalize`, opening (truncating) and writing a file, and rank 0's reading one directory
  entry at a time. Reservations and writes may fail, and a write may stop half-way. Because of the mutex no push is
  lost: each thread's part of a log is what the thread made and could reserve, in its order. While rank 0 reads, nobody
  writes; the merged trace is exactly the calls made, or, where something failed, exactly what was left. Rank 0 panics
  on exactly the entries it cannot read, and a merged trace comes to be exactly if it does not and can write it.
- **Order** (`TimeInvariant`, `MergedOrder`). If a rank's calls are serialised and its clock is steady, the merged trace
  keeps its events in call order, although the sort is unstable and ranks may share time stamps. On one shared clock the
  Finalize events are exactly the last ones.
- **Finalize ends** (`Progress`). Whatever is reported as failed, some step other than a new call is possible until
  every rank is done, and once all ranks are in `MPI_Finalize` only so many steps can follow.
- **Requests and time** (`Wrappers`, `Requests`, `Pairing`, `MissingRecords`, `MergedRequests`, `MergedTime`,
  `FalsePair`). A handle is recorded after a
  nonblocking start but before a `Wait` or `Test`. Because of this the records, the log of a serialised rank and the
  merged trace show exactly which start belongs to which completion although MPI uses handles again, if and only if no
  start and no completion of a finished request is missing; recorded intervals never overlap or underflow.
- **Text** (`Numbers`, `NumberGrammar`, `Json`, `Codec`, `RecordText`, `Torn`). A printer with the compact and the
  pretty layout, a lexer, a parser (RFC 8259, sections 2 to 7) and the fifteen records, each spelt out character by
  character. Every trace survives the round trip in both layouts, a text is accepted as an event if and only if it has
  that event's fields, and a trace that was cut short anywhere is never accepted.
- **The log and the directory** (`Log`, `Sort`, `Traces`, `TraceDirectory`, `History`). The growth policy of the
  log, the in-place sort, independence of the directory's listing order, and what successive runs on one directory
  leave there.

`Types` holds the values that cross from C to Rust, `Dispatcher` the mapping from a call record to the event stored,
and `Sequences` facts on sorting and filtering.
`dafny verify --resource-limit 2000000 --verification-time-limit 0 dfyconfig.toml` checks everything.

## What is assumed

Assumptions stand in the preconditions of the results that need them, never in the model of the code.

- A `Config` says of which ranks something is assumed. `quiet`: the rank's MPI calls have returned when it calls
  `MPI_Finalize` (MPI 3.1, section 8.7). `serial`: its calls never overlap (section 12.4, below
  `MPI_THREAD_MULTIPLE`). `steady`: its clock increases between two readings and does not wrap around. `shared`: all
  ranks read one such clock. With empty sets nothing is assumed; only the results about order in time use `steady`
  or `shared`.
- Barriers are reliable (section 5.3): `LeaveBarrier1` and `LeaveBarrier2` wait for everybody.
- `Pairing.Lawful`: MPI never returns a handle that is still active, and only null and active handles are tested or
  waited for (sections 3.7.2 and 3.7.3); the program may assign its request variables freely otherwise. The clock does
  not go backwards and does not wrap around.
- Answers of MPI, of the clocks, of the allocator and of the file system are parameters of the methods and labels of
  the steps.

## What turned out otherwise

- A comment says that registering does not panic when an allocation fails (`interpol-rs/src/interpol.rs:50`). What is
  reserved is the vector's buffer only, and for an empty log not even that, since twice its length is zero; the event is
  put in a box of its own (`interpol-rs/src/interpol.rs:52`), and that allocation cannot fail without ending the process.
  `Log.AbortsExactly`: the process ends if and only if the reservation succeeds and there is no memory for the box or,
  with an empty log, for the buffer. `Log.SecondEventAborts` is such a case with one event held and room in the buffer.
- A call whose registration fails is missing from the log, and the pairs shown may then be wrong.
  `FalsePair.FalsePair` is a run with two barriers on one handle in which the end of the first and the start of the
  second could not be registered: the log pairs the start of the first with the end of the second, and on every handle
  it alternates as it should, so nothing gives it away. `MergedRequests.LogShowsExactly` and `MergedShowsExactly`: the
  pairs shown are the true ones if and only if no start and no completion of a finished request is missing.
- An entry that cannot be read, left by a write that stopped half-way or there from before, makes rank 0 panic, and
  then there is no merged trace although `MPI_Finalize` was reached by all: `Safety.PanicsExactly`.
- For a user-defined operator the wrapper of `MPI_Ireduce` passes -1, which is no `MpiOp` (`src/interpol-c.c:523-524`).
  `Wrappers.OperatorHasCode`: an operator has a code that can be stored if and only if it is not user-defined.
  `MPI_NO_OP` is stored as `Opnull` (`Wrappers.OperatorStored`).
- Rank files of an earlier run with more ranks stay in the directory and are merged again. `History.LatestRunAlone`: the
  merged trace has exactly the latest run's events if and only if no earlier run had more ranks.
- Reserving twice the length exactly makes the log reallocate for every event from the third on, so the number of
  elements copied grows quadratically (`Log.ShapeClosedForm`).

## Model

| member | source | states |
|---|---|---|
| Numbers.ParseIntegerExact | interpol-rs/src/types.rs:3-11 | A text is read as the integer n if and only if it is how n is printed: no leading zeros, no -0, no fraction. |
| Numbers.DecByPlaces | interpol-rs/src/mpi_events/synchronization/mpi_wait.rs:59 | What is printed is the decimal numeral of the number: a minus sign if it is negative, then digits that by their places add up to it. |
| Numbers.DecIsNumber | interpol-rs/src/interpol.rs:112 | Every printed integer is a JSON number. |
| NumberGrammar.NumberExact | interpol-rs/src/interpol.rs:683-685 | A text is read as a number if and only if it is one by the productions of RFC 8259: an optional minus, an integer part without leading zeros, an optional fraction, an optional exponent. |
| Json.SpellsValue | interpol-rs/src/interpol.rs:651-665 | In either layout and at any depth, a printed value followed by anything that cannot prolong it lexes to exactly the value's tokens. |
| Json.ParseTokens | interpol-rs/src/interpol.rs:683-685 | The parser takes the tokens of a value off any token sequence and leaves the rest. |
| Json.ParsedTokens | interpol-rs/src/interpol.rs:683-685 | Conversely, whatever the parser consumed is the token sequence of the value it returns. |
| Json.ParseExact | interpol-rs/src/interpol.rs:683-685 | A text, escapes in strings included, is accepted as v if and only if its tokens are those of v, so blanks between tokens never matter. |
| Json.RoundTrip | interpol-rs/src/interpol.rs:651-665 | Both layouts of every printable value parse back to it. |
| Json.CompactOneLine | interpol-rs/src/interpol.rs:661-664 | Compact text of a printable value has no line break. |
| Json.BlankSkipped | interpol-rs/src/interpol.rs:683-685 | Blanks, tabs and line ends before a token are skipped. |
| Json.CodeUnitRead | interpol-rs/src/interpol.rs:683-685 | Four hexadecimal digits behind a backslash and a u, in either case, are read as the code unit they name. |
| Json.CharacterRead | interpol-rs/src/interpol.rs:683-685 | Inside a string any other character stands for itself, and control characters are refused. |
| Json.EscapeRead | interpol-rs/src/interpol.rs:683-685 | Each of the eight escapes with one letter stands for its character in the table of RFC 8259. |
| Codec.OpNamedExact | interpol-rs/src/types.rs:33-50 | A name is read as an operator if and only if it is that operator's name. |
| Codec.KindNamedExact | interpol-rs/src/interpol.rs:31-47 | A tag selects a struct if and only if it is that struct's name. |
| Codec.LookupExact | interpol-rs/src/interpol.rs:31-39 | A field is found if and only if exactly one member has its name. |
| Codec.ReadFieldExact | interpol-rs/src/types.rs:3-11 | A field reads as v if and only if a member of its name is there exactly once and holds the encoding of v; out-of-range numbers and wrong types never read. |
| Codec.LayoutComplete | interpol-rs/src/mpi_events/collectives/mpi_ireduce.rs:18-28 | What is written of an event is all that its struct stores, and nothing else. |
| Codec.BuildExact | interpol-rs/src/mpi_events/point_to_point/mpi_isend.rs:18-28 | A row of fields builds the event e if and only if it holds all of e's fields with e's values. |
| Codec.EventsEqual | interpol-rs/src/mpi_events/synchronization/mpi_test.rs:16-23 | Two events of one kind that store the same values are the same event. |
| Codec.DecodeExact | interpol-rs/src/interpol.rs:31-39 | An object is accepted as the event e if and only if it names e's struct and has each of its fields exactly once with e's value, in any order and among any other members. |
| Codec.DecodeEncoded | interpol-rs/src/interpol.rs:31-39 | Every encoded event decodes to itself, for all fifteen kinds and all field values. |
| Codec.TraceRoundTrip | interpol-rs/src/interpol.rs:107-123 | Parsing the printed text of any log, compact or pretty, returns exactly that sequence of events. |
| Codec.TraceLines | interpol-rs/src/interpol.rs:651-664 | Of the two layouts only the pretty one has line breaks, unless the trace is empty. |
| Codec.BlanksDoNotMatter | interpol-rs/src/interpol.rs:683-686 | Any text with the tokens of a printed log reads as that log. |
| Codec.StylesAgree | interpol-rs/src/interpol.rs:651-665 | The compact and the pretty text of a log have the same tokens, those of the log. |
| Torn.TokensBalanced | interpol-rs/src/interpol.rs:683-685 | In the tokens of a value no bracket is closed before it is opened, and all are closed at the end. |
| Torn.CutArray | interpol-rs/src/interpol.rs:683-685 | No proper beginning of a text that parses as an array parses as anything. |
| Torn.CutTrace | interpol-rs/src/interpol.rs:683-685 | A trace cut short anywhere, in either layout, is never accepted, neither as a shorter trace nor otherwise. |
| RecordText.CompactObject | interpol-rs/src/interpol.rs:661-664 | Compact text has no blanks: an object is its members joined by commas between braces. |
| RecordText.Headers | interpol-rs/src/interpol.rs:31-47 | Which name each struct is written under and which fields it has, in order. |
| RecordText.InitText | interpol-rs/src/mpi_events/management/mpi_init.rs:56 | Character by character: rank, time stamp and time, each under its literal key, in this order, alone between braces and in a trace behind the tag. |
| RecordText.InitThreadText | interpol-rs/src/mpi_events/management/mpi_init_thread.rs:76 | Character by character: rank, the two thread levels, time stamp and time, each under its literal key, in this order, alone between braces and in a trace behind the tag. |
| RecordText.FinalizeText | interpol-rs/src/mpi_events/management/mpi_finalize.rs:56 | Character by character: rank, time stamp and time, each under its literal key, in this order, alone between braces and in a trace behind the tag. |
| RecordText.SendText | interpol-rs/src/mpi_events/point_to_point/mpi_send.rs:81 | Character by character: rank, partner, bytes, communicator, tag, time stamp and duration, each under its literal key, in this order, alone between braces and in a trace behind the tag. |
| RecordText.RecvText | interpol-rs/src/mpi_events/point_to_point/mpi_recv.rs:81 | The same under its own tag. |
| RecordText.IsendText | interpol-rs/src/mpi_events/point_to_point/mpi_isend.rs:84 | Character by character: rank, partner, bytes, communicator, request, tag, time stamp and duration, each under its literal key, in this order, alone between braces and in a trace behind the tag. |
| RecordText.IrecvText | interpol-rs/src/mpi_events/point_to_point/mpi_irecv.rs:84 | The same under its own tag. |
| RecordText.BarrierText | interpol-rs/src/mpi_events/synchronization/mpi_barrier.rs:59 | Character by character: rank, communicator, time stamp and duration, each under its literal key, in this order, alone between braces and in a trace behind the tag. |
| RecordText.IbarrierText | interpol-rs/src/mpi_events/synchronization/mpi_ibarrier.rs:61-64 | Character by character: rank, communicator, request, time stamp and duration, each under its literal key, in this order, alone between braces and in a trace behind the tag. |
| RecordText.TestText | interpol-rs/src/mpi_events/synchronization/mpi_test.rs:67-70 | Character by character: rank, request, true or false, time stamp and duration, each under its literal key, in this order, alone between braces and in a trace behind the tag. |
| RecordText.WaitText | interpol-rs/src/mpi_events/synchronization/mpi_wait.rs:59 | Character by character: rank, request, time stamp and duration, each under its literal key, in this order, alone between braces and in a trace behind the tag. |
| RecordText.IbcastText | interpol-rs/src/mpi_events/collectives/mpi_ibcast.rs:79 | Character by character: rank, partner, bytes, communicator, request, time stamp and duration, each under its literal key, in this order, alone between braces and in a trace behind the tag. |
| RecordText.IgatherText | interpol-rs/src/mpi_events/collectives/mpi_igather.rs:84 | Character by character: rank, partner, bytes sent and received, communicator, request, time stamp and duration, each under its literal key, in this order, alone between braces and in a trace behind the tag. |
| RecordText.IscatterText | interpol-rs/src/mpi_events/collectives/mpi_iscatter.rs:84 | The same under its own tag. |
| RecordText.IreduceText | interpol-rs/src/mpi_events/collectives/mpi_ireduce.rs:84 | Character by character: rank, partner, bytes, the name of the operator, communicator, request, time stamp and duration, each under its literal key, in this order, alone between braces and in a trace behind the tag. |
| RecordText.TraceSpelled | interpol-rs/src/interpol.rs:651-664 | A compact trace is its records between brackets joined by commas; in a pretty one each record starts on a line of its own, indented by two spaces. |
| RecordText.PrettyRecord | interpol-rs/src/interpol.rs:655 | And each member of a pretty record starts on a line of its own, indented by four. |
| Dispatcher.DispatchKind | interpol-rs/src/interpol.rs:134-241 | The event stored is of the kind of the call. |
| Dispatcher.DispatchTimes | interpol-rs/src/interpol.rs:134-241 | It keeps the call's rank, time stamp and, if its struct has one, duration. |
| Dispatcher.DispatchField | interpol-rs/src/interpol.rs:134-241 | Every field stored is the field of the call it should come from, in particular the received bytes for the two receives and the sent bytes otherwise. |
| Dispatcher.DispatchForgets | interpol-rs/src/interpol.rs:134-241 | Two calls leave the same event if and only if they are of one kind and agree on that kind's fields. |
| Log.ShapeExact | interpol-rs/src/interpol.rs:49-54 | Reserving twice the length before each push leaves, after n events, the capacity 0, 4 or 3(n-1) and has copied 2 + 3 + ... + (n-1) elements. |
| Log.ShapeClosedForm | interpol-rs/src/interpol.rs:49-54 | After n >= 3 registrations the capacity is 3(n-1) and n(n-1)/2 - 1 elements have been copied. |
| Log.PushAllocatesOnce | interpol-rs/src/interpol.rs:50-52 | The push itself has to move the vector's buffer for the first event and never again. |
| Log.AbortsExactly | interpol-rs/src/interpol.rs:50-52 | A registration ends the process if and only if its reservation succeeds and there is no memory for the event's box or, with an empty log, for the buffer. |
| Log.SecondEventAborts | interpol-rs/src/interpol.rs:50-52 | In particular it does with one event held, room in the buffer and no memory left. |
| Log.TraceLog.TryReserveExact | interpol-rs/src/interpol.rs:51 | Succeeds if there is room or memory, keeps the events, and reallocates to exactly the size asked for only when there is no room. |
| Log.TraceLog.Push | interpol-rs/src/interpol.rs:52 | Appends one event, moving a full buffer; fails only if it has to move it and cannot, and then changes nothing. |
| Log.TraceLog.PushBoxed | interpol-rs/src/interpol.rs:52 | Boxes the event before pushing it, and changes nothing if there is no memory for the box or the buffer. |
| Log.TraceLog.ReserveDouble | interpol-rs/src/interpol.rs:51 | Reserving for one more event fails exactly when memory is needed and missing, and then leaves the log untouched. |
| Log.TraceLog.Register | interpol-rs/src/interpol.rs:49-54 | A registration that succeeds appends exactly its event, a failed reservation leaves the log as it was, and the process ends if and only if the reservation succeeds and there is no memory for the box or, with an empty log, for the buffer. |
| Sort.SplitKeepsOrder | interpol-rs/src/interpol.rs:647 | Splitting any one pending range around a pivot leaves only the pairs within its two sides to be ordered. |
| Sort.Partition | interpol-rs/src/interpol.rs:647 | Rearranges one range around any pivot of it and touches nothing outside. |
| Sort.SplitOne | interpol-rs/src/interpol.rs:647 | One unit of work: whichever pending range is taken, everything outside the pending ranges stays in order. |
| Sort.SortUnstableByKey | interpol-rs/src/interpol.rs:647 | Ends, and leaves a sorted permutation of the array, in whatever order the pending ranges are processed. |
| Sequences.SortedArrangements | interpol-rs/src/interpol.rs:647 | Two sorted arrangements of the same events have the same time stamps in the same places and the same events for each time stamp. |
| Sequences.SortedUnique | interpol-rs/src/interpol.rs:647 | If all time stamps differ there is only one sorted arrangement. |
| Traces.RankFiles | interpol-rs/src/interpol.rs:113 | Rank file names are injective in the rank for every i32, never the merged file's name, and always taken up by the reader. |
| Traces.RankFileExact | interpol-rs/src/interpol.rs:113 | A name is the file name of a rank if and only if it is "rank", the decimal numeral of that rank and "_traces.json". |
| Traces.ExtensionExact | interpol-rs/src/interpol.rs:682 | A name has an extension if and only if there is a dot with something before it, and the extension is what follows the last dot. |
| Traces.ReadEntryMeaning | interpol-rs/src/interpol.rs:676-688 | One directory entry: the old merged trace is removed and not read, a JSON file adds its events, another file adds nothing, and reading stops short exactly on an unreadable entry. |
| Traces.ReadSoFarStep | interpol-rs/src/interpol.rs:676-688 | Reading one more entry, whichever it is, keeps what was collected equal to the contributions of the entries seen, and the directory as listed but for the old merged trace. |
| Traces.CollectedAnyOrder | interpol-rs/src/interpol.rs:676-688 | Any two listing orders of the directory collect the same events. |
| Traces.MergesAgree | interpol-rs/src/interpol.rs:647 | Merged traces of one directory agree up to the order of events with equal time stamps, and are equal if there are none. |
| Traces.SameTracesSameMerge | interpol-rs/src/interpol.rs:676-691 | Only the rank files decide what a merged trace of the directory is. |
| Traces.MergedFileIgnored | interpol-rs/src/interpol.rs:678-681 | Writing or removing the merged file does not change what a merged trace is. |
| Traces.SortedAgain | interpol-rs/src/interpol.rs:638-671 | Sorting again, any number of times and whether or not the writes succeed, gives the same events: they never multiply. |
| Traces.CollectedLogs | interpol-rs/src/interpol.rs:673-691 | In any listing order, exactly what the files of ranks 0, 1, ... hold is collected and what other trace files hold. |
| TraceDirectory.TraceDir.WriteFile | interpol-rs/src/interpol.rs:116-121 | Truncates, then writes; a failure to open changes nothing and a write that stops leaves a prefix. |
| TraceDirectory.TraceDir.Serialize | interpol-rs/src/interpol.rs:107-123 | Writes the whole log on a single line to the file named by the rank's own number, and touches no other. |
| TraceDirectory.TraceDir.RegisterFinalize | interpol-rs/src/interpol.rs:289-305 | Appends Finalize and, only if that succeeded, writes the log that includes it. |
| TraceDirectory.TraceDir.DeserializeAllTraces | interpol-rs/src/interpol.rs:673-691 | Read in any order, the directory yields the events of all its trace files, or a panic if and only if some entry is unreadable; only the old merged trace is removed. |
| TraceDirectory.LayoutChosen | interpol-rs/src/interpol.rs:651-664 | The text has line breaks if and only if the readable layout was asked for. |
| TraceDirectory.TraceDir.SortAllTraces | interpol-rs/src/interpol.rs:638-671 | Unless an entry is unreadable, writes a merged trace of the directory to interpol_traces.json, in several lines if and only if the readable layout was asked for. |
| History.WriteRanksFile | interpol-rs/src/interpol.rs:113-121 | After a run every rank's file holds that rank's log: no later rank's write overwrites it. |
| History.HistoryFiles | interpol-rs/src/interpol.rs:113-121 | After any history of runs, rank r's file holds the log of the last run that had a rank r, for every r ever used. |
| History.HistoryMerged | interpol-rs/src/interpol.rs:676-701 | The latest merged trace has, for every rank index ever used, the log of the last run that had it, and nothing else, and reads back as such. |
| History.LatestRunAlone | interpol-rs/src/interpol.rs:676-701 | It has exactly the latest run's events if and only if no earlier run had more ranks. |
| RankInvariant.LockStep | interpol-rs/src/interpol.rs:251-257 | Every step keeps the log's lock with at most one thread, and with the main thread from the Finalize registration until the file is written. |
| RankInvariant.FoundStep | interpol-rs/src/interpol.rs:49-54 | Because of the lock, every step leaves the log as whoever is about to push onto it has found it. |
| RankInvariant.RankStep | interpol-rs/src/interpol.rs:289-305 | Every step keeps a rank in order: one lock holder, nobody pushing onto an outdated log, only its own calls in its log, Finalize last in what is saved, all of the log saved if its calls were over, and one thread at most inside a call if they are serialised. |
| SystemInvariant.BarriersStep | src/interpol-c.c:88-117 | Every step keeps both barriers: nobody is past one before everybody has reached it. |
| SystemInvariant.FilesTouched | interpol-rs/src/interpol.rs:113-121 | A step changes at most its own rank's file, or the merged trace if it belongs to the collection. |
| SystemInvariant.FilesStep | interpol-rs/src/interpol.rs:113-121 | Every step keeps the file of each rank as that rank's write left it, the file of a rank that has not opened it as it was, and all other files as they were. |
| SystemInvariant.GatherStep | interpol-rs/src/interpol.rs:638-671 | Every step of the collection keeps rank 0's events those of the directory it listed, through sorting and writing. |
| TimeInvariant.SerialThreadStep | src/interpol-c.c:130-132 | With serialised calls and a steady clock, every step keeps recorded intervals disjoint and in log order. |
| TimeInvariant.SharedStep | src/interpol-c.c:88-91 | On a shared clock, every step keeps each rank's calls before every rank's Finalize time. |
| Safety.InvStep | src/interpol-c.c:86-121 | Every step keeps the whole invariant. |
| Safety.Reachable | src/interpol-c.c:86-121 | Every state of every run satisfies it. |
| Safety.LogOnlyGrows | interpol-rs/src/interpol.rs:62-84 | However a run goes on, the entries a log has stay where they are. |
| Safety.HolderUnique | interpol-rs/src/interpol.rs:62-84 | In any run at most one of a rank's threads and its finalizing main thread is inside a registration. |
| Interleaving.LogInterleavesThreads | interpol-rs/src/interpol.rs:62-84 | In any run and schedule, whichever reservations fail, each thread's part of a log followed by at most one call on its way is exactly what the thread made and could reserve, in its order. |
| Interleaving.LogOfThreads | interpol-rs/src/interpol.rs:62-84 | There is nothing else in the log. |
| Interleaving.KeptPicked | interpol-rs/src/interpol.rs:62-84 | The calls a rank kept are those at known, increasing positions among all the calls it made. |
| Interleaving.SerialLog | interpol-rs/src/interpol.rs:62-84 | The whole log of a serialised rank, followed by at most one call on its way, is the sequence of the calls the rank made and could reserve. |
| Safety.GatherReadsFinishedFiles | src/interpol-c.c:112-117 | Whenever rank 0 is inside the collection, no rank is mid-write, and the file of every rank whose write succeeded reads back as its log up to Finalize, which is all of it if its calls were over. |
| Safety.RankFileText | interpol-rs/src/interpol.rs:107-123 | In any run, what a rank has written is in the file named by its number, on a single line, and is its log if it could be written. |
| Safety.TornMakesPanic | interpol-rs/src/interpol.rs:682-686 | A rank file whose write stopped half-way makes rank 0 panic; it is never merged, neither as a shorter log nor otherwise. |
| Safety.PanicsExactly | interpol-rs/src/interpol.rs:676-686 | Once it has read the directory, rank 0 has panicked if and only if some rank's write stopped half-way or an entry that cannot be read was there from the start and no rank has overwritten it. |
| Safety.MergedExactly | interpol-rs/src/interpol.rs:638-701 | When rank 0 is through, it has written a merged trace if and only if there was no such entry and the merged file itself could be opened and written. |
| Safety.MergedHasWhatWasLeft | interpol-rs/src/interpol.rs:638-701 | Whatever registrations, openings and writes failed, the merged file reads back as a sorted trace whose events are exactly what the ranks left, the log of a rank that wrote it and otherwise what an earlier run left under its name, and what trace files of no rank of this run hold. |
| Safety.MergedLayout | interpol-rs/src/interpol.rs:651-664 | The merged file is in several lines if and only if the readable layout was asked for. |
| Safety.MergedHasAllLogs | interpol-rs/src/interpol.rs:638-701 | If every rank file was written and all calls were over, the events of the merged trace are, as a multiset, those of all the logs and of trace files that belong to no rank of this run. |
| Safety.RunMatchesHistory | interpol-rs/src/interpol.rs:638-701 | A run of the protocol leaves the directory exactly as one run of the histories does, so their results apply to it. |
| MergedOrder.RankOrder | interpol-rs/src/interpol.rs:647 | Filtering any sorted permutation of the logs, and of whatever else holds no event of the rank, gives that rank's log if its time stamps increase. |
| MergedOrder.MergedHasRankLog | interpol-rs/src/interpol.rs:638-671 | What the merged trace holds of a rank that wrote its file is, as a multiset, what it wrote, whatever its threads, the clocks and the other ranks did. |
| MergedOrder.MergedKeepsRankOrder | interpol-rs/src/interpol.rs:638-671 | If a rank serialises its calls and its clock is steady, filtering the merged trace by that rank gives its log in its original order, whatever the other ranks do and whatever earlier runs left under other names, as long as it is not of this rank. |
| MergedOrder.OwnTracesKept | interpol-rs/src/interpol.rs:113-121 | Every run leaves, at every moment and whatever fails, only trace files that hold events of their own rank, if it found only such files; so the condition on earlier runs holds from an empty directory on. |
| MergedOrder.FinalizeAfterAll | src/interpol-c.c:88-91 | On a shared clock, every other event's interval on any rank ends before every rank's Finalize. |
| MergedOrder.MergedEndsWithFinalize | src/interpol-c.c:86-121 | In any run on a shared clock with all calls over, the N Finalize events are exactly the last N of the merged trace. |
| Progress.CanProceed | interpol-rs/src/interpol.rs:126-132 | Whatever has failed so far and whatever the clocks show, until all ranks are done there is a step that starts no new call. |
| Progress.NoDeadlock | src/interpol-c.c:112-120 | So no reachable state of any run is a deadlock. |
| Progress.EveryStepCounts | src/interpol-c.c:112-120 | Every step but the start of a new call makes the number of steps that can follow smaller. |
| Progress.FinalizeEnds | src/interpol-c.c:112-120 | Once all ranks are in Finalize with their calls over, no new call starts, every continuation is bounded, and when no step is possible any more every rank is done. |
| EndToEnd.CallsAccountedFor | interpol-rs/src/interpol.rs:126-132 | At every moment of a run without failures, the calls made are exactly those logged and those on their way. |
| EndToEnd.SuccessfulGather | src/interpol-c.c:112-117 | Whenever rank 0 is inside the collection, the file of every rank that met no failure and whose calls were over reads back as its entire log, Finalize last, and the rank is not writing. |
| EndToEnd.MergedInTheEnd | interpol-rs/src/interpol.rs:638-701 | A run without failures has written a merged trace once all ranks are done, if what the directory held besides the files of these ranks can be read. |
| EndToEnd.FinalizeMerges | src/interpol-c.c:86-121 | Once all ranks are in Finalize, every continuation without failures is bounded, and when no step is possible any more the merged trace has been written. |
| EndToEnd.EveryCallMergedOnce | interpol-rs/src/interpol.rs:134-241 | A run without failures whose ranks are done has written a merged trace whose events are, as a multiset, exactly those of the calls made and of trace files that belong to no rank of this run. |
| EndToEnd.EveryCallFound | interpol-rs/src/interpol.rs:134-241 | Each call made is found in that merged trace as an event of its kind, each field with the call's value. |
| Requests.RoleStored | interpol-rs/src/interpol.rs:134-241 | The stored event says of the request what the call did. |
| Requests.PairedUnique | src/interpol-c.c:194-219 | Reading pairs off a log is never ambiguous: a completion has at most one start and a start at most one completion. |
| Requests.PairedAfter | src/interpol-c.c:315-371 | One more record adds exactly the pair it completes and changes no earlier one. |
| Requests.MissingCompletion | src/interpol-c.c:194-371 | If the completion of a running request is missing and the next start on its handle is there, the alternation breaks for good. |
| Wrappers.CodesInOrder | interpol-rs/src/types.rs:33-50 | The code of an operator is its place in the declaration, and no other code is one. |
| Wrappers.OperatorStored | src/interpol-c.c:491-525 | The operator stored is the one passed, except that MPI_NO_OP becomes Opnull and a user-defined operator has none. |
| Wrappers.OperatorHasCode | src/interpol-c.c:491-525 | An operator has a code that can be stored if and only if it is not user-defined. |
| Wrappers.ElapsedExact | src/interpol-c.c:130-132 | The u64 difference of two readings is the time between them if and only if the clock did not go backwards, and added to the first it gives the second modulo 2^64. |
| Wrappers.Process.constructor | src/interpol-c.c:9 | A process starts with rank -1, an empty log and nothing recorded. |
| Wrappers.Process.Store | interpol-rs/src/interpol.rs:289-305 | A Finalize event is stored and written out, any other is only stored. |
| Wrappers.Process.RegisterMpiCall | interpol-rs/src/interpol.rs:126-132 | One call is recorded; a failed registration is swallowed and leaves log and directory as they were; only Finalize writes the rank's file. |
| Wrappers.Process.MpiInit | src/interpol-c.c:16-49 | Learns the rank and stores it already in its own event, with the instant after the call. |
| Wrappers.Process.MpiInitThread | src/interpol-c.c:51-84 | The same, with the thread levels asked for and given. |
| Wrappers.Process.MpiFinalize | src/interpol-c.c:86-121 | Records Finalize and writes the rank's file if that succeeded; behind the second barrier exactly rank 0 merges what the directory then holds, and panics exactly if some entry is unreadable. |
| Wrappers.Process.MpiSend | src/interpol-c.c:127-157 | Stores an MpiSend event with the rank, the destination, the bytes sent, communicator, tag and interval of the call. |
| Wrappers.Process.MpiRecv | src/interpol-c.c:159-189 | Stores an MpiRecv event with the rank, the source, the bytes received, communicator, tag and interval of the call. |
| Wrappers.Process.MpiIsend | src/interpol-c.c:191-221 | Stores destination, bytes, communicator, tag and the handle that the start left in the caller's variable. |
| Wrappers.Process.MpiIrecv | src/interpol-c.c:223-253 | The same with source and received bytes. |
| Wrappers.Process.MpiBarrier | src/interpol-c.c:259-285 | Stores one interval on the communicator. |
| Wrappers.Process.MpiIbarrier | src/interpol-c.c:287-313 | Stores the communicator and the handle that the start left in the caller's variable. |
| Wrappers.Process.MpiTest | src/interpol-c.c:315-342 | Stores the handle the variable held before the call, which may reset it, and whether the request was over. |
| Wrappers.Process.MpiWait | src/interpol-c.c:344-371 | Stores the handle the variable held before the call, which resets it. |
| Wrappers.Process.MpiIbcast | src/interpol-c.c:377-407 | Stores root, bytes, communicator and the new handle. |
| Wrappers.Process.MpiIgather | src/interpol-c.c:409-442 | Stores root, bytes sent and received, communicator and the new handle. |
| Wrappers.Process.MpiIscatter | src/interpol-c.c:444-477 | Stores root, bytes sent and received, communicator and the new handle. |
| Wrappers.Process.MpiIreduce | src/interpol-c.c:479-546 | Stores root, type size, operator, communicator and the new handle; the record can be stored if and only if the operator is not user-defined. |
| Pairing.RecordTellsMeaning | src/interpol-c.c:194-371 | Each record says what its call really did to the requests, because handles are read after a start and before a completion. |
| Pairing.RecordTimes | src/interpol-c.c:130-132 | No duration underflows: the interval recorded runs from the first reading of the clock to the second. |
| Pairing.PairsShown | src/interpol-c.c:194-371 | For the calls any process makes, a start and a completion really belong together if and only if their records carry the same handle with nothing but unfinished tests on it between them; every completion has its start and every start that is no longer active its completion. |
| Pairing.HandleAlternates | src/interpol-c.c:194-371 | On every non-null handle the records repeat start, unfinished tests, completion, and end inside the pattern exactly if the handle is active. |
| Pairing.TimeAddsUp | src/interpol-c.c:22-369 | Recorded intervals are disjoint and in the order of the calls, and the durations add up to no more than the time they span. |
| Pairing.NoOverlapInPair | src/interpol-c.c:22-369 | No completion begins before its start has returned. |
| Pairing.InitToFinalize | src/interpol-c.c:22-112 | The durations of all calls add up to at most the time from the first record to Finalize. |
| MergedRequests.WrapperRecords | src/interpol-c.c:22-371 | What the wrappers record is what the protocol expects of a returning call. |
| MergedRequests.LogIsCalls | src/interpol-c.c:194-371 | If nothing failed on a serialised rank its log, followed by at most one call on its way, is the sequence of the calls the rank made. |
| MergedRequests.LogAlternates | src/interpol-c.c:194-371 | So at any moment its stored events alternate on every handle. |
| MergedRequests.MergedIsCalls | src/interpol-c.c:194-371 | And its part of the merged trace says of the requests, in order, what its calls did, whatever failed on other ranks. |
| MergedRequests.MergedPairs | src/interpol-c.c:194-371 | The true pairs of starts and completions among those calls are exactly those shown by the rank's part of the merged trace. |
| MergedRequests.MergedAlternates | src/interpol-c.c:194-371 | On every handle that part alternates, ending inside the pattern exactly if the handle is still active. |
| MissingRecords.ShownExactly | interpol-rs/src/interpol.rs:49-54 | Whichever records are missing, those that are left show exactly the true pairs if and only if no start and no completion of a finished request is missing; and nothing false is shown if no start is missing whose completion is there. |
| MergedRequests.LogShowsExactly | interpol-rs/src/interpol.rs:49-54 | So it is with the log of a serialised rank at any moment of any run, whichever registrations failed. |
| MergedRequests.MergedShowsExactly | interpol-rs/src/interpol.rs:638-671 | And with its part of the merged trace, if its file was written, whatever failed elsewhere. |
| FalsePair.FalsePair | interpol-rs/src/interpol.rs:49-54 | A run whose log shows a pair that does not belong together although the log alternates on every handle. |
| MissingRecords.TimeLeft | src/interpol-c.c:22-369 | Whichever records are missing, the intervals left are disjoint and in order, and add up to no more than the time they span nor than those of all the calls. |
| MergedTime.LogTimeAddsUp | src/interpol-c.c:22-369 | In the log of a serialised rank, at any moment and whichever registrations failed, the intervals are disjoint and in order and the durations stored add up to at most the time they span. |
| MergedTime.MergedTimeAddsUp | src/interpol-c.c:22-112 | In the merged trace they add up to at most the time from the rank's first event to its last, which is no later than its Finalize, on any clock that does not go back. |

## Left out

- The Fortran front end, the hash function beside it, the Makefile and the scripts.
- The real MPI library, the instructions that read the counter, `gettimeofday`, console output and the environment
  variable lookup: their answers are parameters. That the counter is read with or without fences is not distinguished.
- Floating point: `time` is kept as the text of a JSON number, and no numeric round trip is claimed. Non-finite times,
  which would print as `null`, are not modelled.
- What serde, typetag and derive_builder do inside. Records are read from objects only, each field exactly once, and
  members that are not fields are passed over; a record with two members named `type` is taken as unreadable.
- Json.ParseExact: the parser's limits on nesting and on the magnitude of numbers in members that are not fields are not
  modelled; neither is reached by a trace.
- Rayon's own algorithm and scheduling: the sort is a divide-and-conquer sort that may process its disjoint ranges in
  any order.
- Traces.ReadEntryMeaning: every entry is a file that can be read and removed. For a sub-directory, an entry that cannot
  be read or removed, or a directory that cannot be listed, the program panics; failures to create the directory are
  those to open a file in it.
- Progress.NoDeadlock: a process that ends because there is no memory for an event's box or for the first buffer
  (`Log.AbortsExactly`) is not a step of `Protocol`; what MPI then does with the other ranks is not modelled.
- Log.ShapeClosedForm: capacities are unbounded numbers; the overflow of twice the length of a log is not modelled.
- Byte counts are given values: that the product of type size and count may overflow a C int, and that `MPI_Ireduce`
  keeps the size of the type only, is taken over as it is.
- Wrappers.Process.MpiIreduce: for a user-defined operator the code handed over is no value of the enumeration it is
  read as, and nothing is promised of the log.
- The concurrency of the log is in `Protocol`; `Log.TraceLog` and `Wrappers.Process` are the sequential code that runs
  under the lock or within one thread.
- Pairing.PairsShown: no claim under `MPI_THREAD_MULTIPLE`, where another thread may use a handle again before a
  completion is registered; requests that are freed, cancelled or completed by calls that are not traced stay active.
- MergedRequests.MergedShowsExactly: no claim about the order of events of a rank whose clock shows the same value
  twice; what holds then is `MergedOrder.MergedHasRankLog`.
