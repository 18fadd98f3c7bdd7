# A verified model of the HDTrace tool chain

HDTrace records what parallel programs do. A library writes nested states as an XML log and measured
values as self-describing binary files; samplers and wrappers feed it; small tools read the results and
merge them. This project models the parts of that chain whose correctness is not obvious from any one
function, and proves what they promise. `dafny verify dfyconfig.toml` checks everything.

The modules follow the program's files:

* `StringBuffers`, `LogFiles`, `StateLogs`, `TraceWriters`, `TraceSessions`, `LogReader`, `TraceTexts`: the state
  log of `hdTrace.c`, from the growing string buffers and the partial writes of `common.c` up to readers that
  recover the call forest. `StateLogs` is the specification at message level; `TraceWriters` is the
  trace object on the heap, with its array of reusable state objects; `TraceSessions` puts its calls together;
  `LogReader` reads messages, `TraceTexts` the characters of a file.
* `Tiles`, `MasterWorker`, `FenceWork`: the two MPI programs that compute a fractal in tiles. The first
  is a master/worker protocol over first-in first-out channels (section 3.5 of MPI-2.2), the second a
  sequence of collective fences (section 11.4.1 of MPI-2.2). The pixel function is arbitrary.
* `StatsFormat`, `StatsHeaders`, `StatsGroups`: the statistics file, its header, the group object that writes it,
  and the reader of `hdStatsPrint.c`.
* `SampleColumns`, `Sampling`, `Counters`, `SamplerThread`, `SamplerFiles`: the resource sampler. One code path
  registers columns, another writes values; they are compared for every machine and choice of sources, down to
  what each column's name stands for. The thread and its controller are a state machine over their critical
  sections. `SamplerFiles` follows the samples into the statistics file.
* `Classifier`, `DeclarationDetector`, `Definitions`, `ItemTexts`: the C declaration extractor. The classifier is compared with a
  whole-text lexer in the sense of sections 6.4.4.4, 6.4.5 and 6.4.9 of ISO/IEC 9899:1999, restricted to
  what the code tracks.
* `TypeIds`: the memoised numbering of derived datatypes and the lines it writes.
* `BlockMessages`, `PowerTraces`: the power meter's block messages (the framing of section 8.7.9 of
  IEEE 488.2, repeated), and the way one answer is dealt out to several traces.
* `CommMerge`, `Paths`: the merger of communicator descriptions, and names made of labels.
* `Decimals`, `Fields`, `Basics`: decimal numbers and separated fields, as several of the above print and
  scan them, and a few definitions that they share.

Objects whose methods update fields in the program are classes here, loops are loops, and each such
method is tied to a function of the old state; what that function means is then proved in lemmas.

## Readings of the program

Where the program leaves something to its environment, the model makes it explicit:

* System calls are a script of outcomes (so many bytes taken, interrupted, not ready, failed). A script
  that has come to its end stands for a descriptor that is never ready again.
* Times, measured values, random numbers and the shuffle are parameters. Times are 32-bit patterns.
* A trace is switched on and off, and its depth limit set, only outside every state; the program checks
  the latter only.
* Messages must fit the log buffer, names the file name buffer, and an entry the entry buffer (the sum of
  the value lengths plus 8 at most 1024). The program does not check these.
* A statistics group without columns has no next column type; typed writes to it are excluded, whole
  entries are not.
* A datatype is made of types that existed before it.
* Memory that nothing has been stored in holds arbitrary bytes, which are a parameter. Whether the C library
  can reallocate to no bytes is a parameter, too: the C standard leaves it open, and glibc frees the block and
  returns nothing. That it can allocate no bytes in the first place is taken for granted, as in glibc.
* States and elements without a name are refused, and then the depth does not change: balanced runs start
  states with names.
* The words of an answer are turned round as on a little-endian host; on a big-endian one the program leaves
  them as they are.
* A type that has a number stays what it is until it is freed; its handle may stand for another type then.
* Puts of different workers that overlap are undefined in MPI-2.2. They are under way together only in images
  below 20 pixels a side; there the model lets them arrive one after the other, with equal values.

Where code and documentation disagree the model follows the code:

* `flushGroupBuffer` is documented to disable the group when a write fails, but every case of its switch
  falls through into the assertion of the default branch. The model stops the group there.
* A comment in `cfdd_pushChar` promises to filter out the keyword extern; the code drops every word that
  contains it and has white space behind it.
* The comment at `)` in `cfdd_writeChar` promises to keep white space behind it; the flags it sets drop it.
* `split_filename` is documented to allow no underscores in project names, and puts them together again.
* `hdS_writeUInt64Value` writes a signed value, so a column of unsigned values refuses it.
* Closing a trace switches logging on again, also after a failed flush whose text is still in the buffer.
* The step for disks returns early when neither total is traced, although per-device columns may exist.
* The master/worker program stores the rows of the image a height apart, not a width.
* A failed read is documented to be reported by `LMG_readBinaryMessage`. While the data of a block is read it is
  not noticed: the negative result is compared with a size, which makes it a large unsigned number, and the
  bytes that have not arrived are taken from the memory as it was.
* The power meter's reader takes every failure to reallocate for a lack of memory, also that of a message that
  begins with an empty block.
* `hdT_setNestedDepth` documents a limit of 0 to record the uppermost states; nothing is recorded then.
* `RUT_MAX_STATS_VALUES` is documented to be the most values that can be traced; it leaves out the context switches.
* A comment in the network step announces that overflows of the system's counters are handled. The largest number
  of the counter's type is added where it should be one more.
* The corrections of the other counters shift a sum by a difference, because shifting binds weaker than adding.
* The size of a text trace's part of an answer is never used to step over it.

For each of these a lemma says what it comes to, for most of them exactly when the result is right all the
same.

All lemmas carry `{:induction false}`: their proofs do not lean on automatic induction.

## Model

| member | source | states |
|---|---|---|
| `StateLogs.BodyIsRendered` | HDTraceWritingCLibrary/src/hdTrace.c:491-579 | the main induction: whatever is recorded and open so far, running the calls of a body adds to the log exactly the post-order rendering of their forest, pruned at the depth limit, and changes the innermost open state by exactly the attributes and elements logged for it |
| `StateLogs.BalancedRunIsProgram` | HDTraceWritingCLibrary/src/hdTrace.c:491-579 | every balanced sequence of calls is the run of a program with properly nested calls, so statements about programs cover all balanced runs |
| `StateLogs.BalancedRunIsRendered` | HDTraceWritingCLibrary/src/hdTrace.c:491-579 | a balanced run on an idle trace logs the rendering of its pruned call forest: `<Nested>` pairs around exactly the non-empty child lists, each state's own tag behind its children |
| `StateLogs.DisabledRunIsSilent` | HDTraceWritingCLibrary/src/hdTrace.c:491-579 | a balanced run while logging is off writes nothing and leaves the trace outside every state |
| `StateLogs.SessionIsRendered` | HDTraceWritingCLibrary/src/hdTrace.c:232-280 | the log of a session of balanced runs under changing settings is the concatenation of what its enabled runs record |
| `LogReader.DecodeRender` | HDTraceWritingCLibrary/src/hdTrace.c:534-577 | a stack reader over the messages recovers the forest that was written |
| `LogReader.RenderIsInjective` | HDTraceWritingCLibrary/src/hdTrace.c:534-577 | two different recorded forests never give the same log |
| `LogReader.DecodeIsExact` | HDTraceWritingCLibrary/src/hdTrace.c:534-577 | a message sequence is a complete log exactly when it renders the forest that the reader finds in it |
| `LogReader.LogOfRunIsDecodable` | HDTraceWritingCLibrary/src/hdTrace.c:491-579 | end to end: from the log of any balanced run the reader recovers exactly the calls above the depth limit with attributes, elements and times |
| `TraceWriters.TraceWriter.constructor` | HDTraceWritingCLibrary/src/hdTrace.c:112-210 | a new trace is idle and off, with the program's start tag as the whole log so far |
| `TraceWriters.TraceWriter.SetEnabled` | HDTraceWritingCLibrary/src/hdTrace.c:252-280 | switching changes the flag and nothing of the log; allowed outside every state only |
| `TraceWriters.TraceWriter.SetNestedDepth` | HDTraceWritingCLibrary/src/hdTrace.c:232-237 | the depth limit changes outside every state only; elsewhere the call fails without effect |
| `TraceWriters.TraceWriter.LogStateStart` | HDTraceWritingCLibrary/src/hdTrace.c:491-541 | the heap of reusable state objects, the growing array and the log buffer together make exactly the specified step of a state's start: no open state is disturbed by growth or by reusing stale objects, and a failed write switches logging off |
| `TraceWriters.TraceWriter.LogAttributes` | HDTraceWritingCLibrary/src/hdTrace.c:448-474 | appends to the innermost open state's attributes and to nothing else; outside every state it fails |
| `TraceWriters.TraceWriter.LogElement` | HDTraceWritingCLibrary/src/hdTrace.c:401-427 | appends an indented element to the innermost open state and to nothing else; outside every state it fails |
| `TraceWriters.TraceWriter.LogStateEnd` | HDTraceWritingCLibrary/src/hdTrace.c:556-579 | makes exactly the specified step of a state's end: closing tag of the children when there are any, then the state's tag |
| `TraceWriters.TraceWriter.Finalize` | HDTraceWritingCLibrary/src/hdTrace.c:617-653 | a trace closed without any failed write leaves a file that is the start tag, the text of all messages in order, and the end tag, with nothing left in the buffer |
| `TraceWriters.TraceWriter.Indentation` | HDTraceWritingCLibrary/src/hdTrace.c:824-827 | the tail of the whitespace string is exactly as many tabs as asked for |
| `TraceWriters.TraceState.Start` | HDTraceWritingCLibrary/src/hdTrace.c:855-876 | a reused state object shows nothing of its earlier use |
| `TraceWriters.TraceState.CreateTag` | HDTraceWritingCLibrary/src/hdTrace.c:898-927 | the tag is the text of the state's message, which `TraceTexts.MessageRoundTrip` reads back: it holds name, attributes, both times relative to the start second, and the elements when there are any |
| `TraceWriters.Enlarge` | HDTraceWritingCLibrary/src/hdTrace.c:491-541 | growing keeps every state object at its index and makes room for the new depth |
| `TraceWriters.ProvideState` | HDTraceWritingCLibrary/src/hdTrace.c:491-541 | starting a state in the object found at its depth, or a new one, keeps every open state below it as it was |
| `TraceTexts.MessageRoundTrip` | HDTraceWritingCLibrary/src/hdTrace.c:534-577 | from its characters each message is read back by a scanner that knows the format only: which of the three it is, its depth, and a state's name, attributes, elements and both times, also times before the creation of the trace; names must be free of blanks and `>`, attributes of `>`, elements of `</` |
| `TraceTexts.FileDeterminesForest` | HDTraceWritingCLibrary/src/hdTrace.c:112-653 | the first line, the text of any forest with such contents and the last line are read back as that forest with its absolute times |
| `TraceTexts.SessionIsReadable` | HDTraceWritingCLibrary/src/hdTrace.c:112-653 | so from characters alone the file of any session tells the recorded calls with their names, attributes, elements and times, when nothing handed over looks like markup |
| `TraceTexts.CallsAreTheRuns` | HDTraceWritingCLibrary/src/hdTrace.c:491-579 | the starts and ends told by the recorded forest are exactly the run's own starts and ends above the depth limit, with their names and times, in order |
| `TraceTexts.SessionIsTheRuns` | HDTraceWritingCLibrary/src/hdTrace.c:232-579 | the same for sessions: the starts and ends of the enabled runs, each above its own limit |
| `TraceTexts.DepthLimit` | HDTraceWritingCLibrary/src/hdTrace.c:213-237 | a limit of 0 is documented to record the uppermost states; one level less is recorded, and what is documented exactly when no state is nested that deep |
| `TraceTexts.NotesRoundTrip` | HDTraceWritingCLibrary/src/hdTrace.c:448-474 | a state's attributes are the texts logged for it in order, a blank behind each |
| `TraceTexts.ItemsRoundTrip` | HDTraceWritingCLibrary/src/hdTrace.c:401-427 | a state's elements are the ones logged for it in order, a line each, indented one deeper than the state, without those that are refused |
| `TraceSessions.PerformAll` | HDTraceWritingCLibrary/src/hdTrace.c:401-579 | a whole balanced run of calls on a trace object makes exactly the steps of the specification, in order, unless a write fails |
| `TraceSessions.PerformPhases` | HDTraceWritingCLibrary/src/hdTrace.c:232-579 | a session of balanced runs under changing settings adds exactly the specified messages, unless a write fails |
| `TraceSessions.RecordSession` | HDTraceWritingCLibrary/src/hdTrace.c:112-653 | end to end: a trace that is created, used for any session of balanced runs under changing settings and closed without a failed write leaves a file that is the start tag, the text of what each enabled run records down to its depth limit, and the end tag; the characters of that file are read back as exactly the recorded calls, whose starts and ends are those of the runs above the limits |
| `TraceSessions.Record` | HDTraceWritingCLibrary/src/hdTrace.c:112-653 | in particular, for one balanced run: the start tag, the text of the pruned call forest, each state behind its children, and the end tag, from which the forest is read back |
| `LogFiles.WriteAllMeaning` | HDTraceWritingCLibrary/src/common.c:242-337 | a complete write succeeds exactly when the environment takes enough bytes before it first fails, and what reaches the file is exactly the part it takes, however the bytes are split up and however often the calls are interrupted |
| `LogFiles.OutputFile.WriteToFile` | HDTraceWritingCLibrary/src/common.c:242-337 | the loop over partial and interrupted writes appends exactly what a complete write specifies |
| `LogFiles.LogBuffer.FlushLog` | HDTraceWritingCLibrary/src/hdTrace.c:770-810 | on success the buffer is empty and its text on file; on failure logging is off and the buffer is kept |
| `LogFiles.LogBuffer.WriteLog` | HDTraceWritingCLibrary/src/hdTrace.c:730-751 | one message goes through the fixed buffer as specified, and the buffer position stays inside it |
| `LogFiles.FlushKeepsText` | HDTraceWritingCLibrary/src/hdTrace.c:770-810 | a flush loses and reorders nothing; a failing one leaves a prefix of the pending text on file |
| `LogFiles.PutKeepsText` | HDTraceWritingCLibrary/src/hdTrace.c:730-751 | after every message file and buffer together hold the old text and the message, or a prefix of it with logging off |
| `LogFiles.WhenWritten` | HDTraceWritingCLibrary/src/hdTrace.c:730-751 | what is on file after a message: everything with forced flushes, otherwise nothing new unless the message would have filled the buffer, and then what had been waiting |
| `LogFiles.BufferedEqualsUnbuffered` | HDTraceWritingCLibrary/src/hdTrace.c:730-810 | over every run, with every pattern of forced flushes and partial writes, buffered logging equals unbuffered logging; after an error the file holds a prefix for good |
| `LogFiles.CleanRunIsComplete` | HDTraceWritingCLibrary/src/hdTrace.c:617-653 | a log closed without an error after a run without an error is exactly its text and the end tag |
| `LogFiles.FinishAfterFailedFlush` | HDTraceWritingCLibrary/src/hdTrace.c:617-653 | finalising switches logging on again, so a buffer whose flush failed half-way is written twice: the log is intact exactly when the failed flush had written nothing |
| `StringBuffers.AmortisedGrowth` | HDTraceWritingCLibrary/src/hdTrace.c:930-946 | over any run of requests all copying by reallocation is at most the present size, which is at least the largest request and below twice of it |
| `StringBuffers.StringBuffer.EnsureSpace` | HDTraceWritingCLibrary/src/hdTrace.c:930-946 | makes room while keeping the content |
| `StringBuffers.StringBuffer.Set` | HDTraceWritingCLibrary/src/hdTrace.c:855-876 | the buffer then holds exactly the string |
| `StringBuffers.StringBuffer.Append` | HDTraceWritingCLibrary/src/hdTrace.c:967-977 | the buffer then holds exactly the old content and the string, within its size |
| `StringBuffers.StringBuffer.CopyingIsAmortised` | HDTraceWritingCLibrary/src/hdTrace.c:930-989 | over the whole life of a buffer of a trace the copying it has done is bounded by its size |
| `Tiles.PiecesCover` | MPICH2/cur/examples/pmandel.c:355-384 | the 400 pieces cover exactly the pixels within reach: all of a side below 20, else up to the largest multiple of 20 |
| `Tiles.CutWork` | MPICH2/cur/examples/pmandel.c:355-384 | the cutting loops fill the four arrays with exactly the 400 pieces in order |
| `Tiles.ShuffleReorders` | MPICH2/cur/examples/pmandel.c:373-384 | whatever the random numbers are, shuffling only reorders |
| `Tiles.DrawExchanges` | MPICH2/cur/examples/pmandel.c:373-384 | every draw exchanges the pieces at its two places and leaves all others where they are |
| `Tiles.ShuffleWork` | MPICH2/cur/examples/pmandel.c:373-384 | the loop of swaps in four arrays permutes the pieces as whole pieces |
| `Tiles.Compute` | MPICH2/cur/examples/pmandel.c:489-524 | the worker's loops compute the pixels of the piece row by row |
| `Tiles.OutputData` | MPICH2/cur/examples/pmandel.c:1306-1325 | a result is stored pixel by pixel at the program's cell of each pixel, and nothing else changes |
| `Tiles.PaintAllCell` | MPICH2/cur/examples/pmandel.c:1306-1325 | after any pieces in any order each cell is untouched or holds the value of a pixel whose cell it is |
| `Tiles.ShapeIsRight` | MPICH2/cur/examples/pmandel.c:355-384 | for a picture of the right shape every order of arrival gives the picture computed pixel by pixel |
| `Tiles.RightExactlyForShape` | MPICH2/cur/examples/pmandel.c:355-384 | that happens for every pixel function exactly when both sides are below 20 or a multiple of 20 and rows are stored a width apart (or there is one row) |
| `Tiles.RowsAHeightApart` | MPICH2/cur/examples/pmandel.c:1306-1325 | the program stores rows a height apart, so only squares with such sides and single rows always come out right |
| `Tiles.PiecesDisjoint` | MPICH2/cur/examples/pmandel_fence.c:572-679 | different pieces never overlap exactly when both sides have at least 20 pixels |
| `Tiles.ShuffledApart` | MPICH2/cur/examples/pmandel.c:373-384 | shuffling neither makes pieces overlap nor takes them apart |
| `MasterWorker.StepKeeps` | MPICH2/cur/examples/pmandel.c:400-449 | every step of the root or a worker keeps the invariant: each channel holds exactly what its worker's stage says, pieces are conserved, and the image is what the drawn pieces make of it |
| `MasterWorker.RunsEnd` | MPICH2/cur/examples/pmandel.c:400-449 | however root and workers interleave, at most 2400 + 2 * workers steps are ever made |
| `MasterWorker.Progress` | MPICH2/cur/examples/pmandel.c:400-449 | no deadlock: unless everything is done some process can make a step |
| `MasterWorker.StuckMeansComplete` | MPICH2/cur/examples/pmandel.c:400-531 | whatever the pieces are, a run that cannot go on has drawn each of them exactly once, sent each worker exactly one stop and left no message in any channel |
| `MasterWorker.PiecesAreNumbered` | MPICH2/cur/examples/pmandel.c:400-449 | in every run each piece on its way to a worker or with it carries its own number, which is never that of the stop |
| `MasterWorker.EveryRunComputesTheImage` | MPICH2/cur/examples/pmandel.c:400-531 | for every shuffle, every number of workers from 1 to 400 and every interleaving, a run that cannot go on has drawn each piece exactly once, sent each worker exactly one stop, left no message in any channel, and computed the image pixel by pixel |
| `FenceWork.HandOut` | MPICH2/cur/examples/pmandel_fence.c:435-532 | one round hands out the next pieces in order and fills up with the placeholder |
| `FenceWork.RoundIsNumbered` | MPICH2/cur/examples/pmandel_fence.c:435-462 | every piece in a round carries its own number, and neither the stop's nor the placeholder's |
| `FenceWork.PlaceholdersExactly` | MPICH2/cur/examples/pmandel_fence.c:435-462 | some round hands out a placeholder, for which the program puts one pixel in front of the image, exactly when the number of workers does not divide the number of pieces |
| `FenceWork.NoPlaceholders` | MPICH2/cur/examples/pmandel_fence.c:435-679 | when it does, no worker works on a placeholder in any run |
| `FenceWork.StepKeeps` | MPICH2/cur/examples/pmandel_fence.c:435-532 | every fence and every step between fences keeps root and workers in the same round with the right window contents |
| `FenceWork.AccessesAlternate` | MPICH2/cur/examples/pmandel_fence.c:435-679 | at every moment of every run: puts into the image happen only between the second and the third fence of a round, the root reads it only after the third, and workers read their windows only while the root does not write them |
| `FenceWork.PutsApart` | MPICH2/cur/examples/pmandel_fence.c:572-679 | in an image of 20 pixels a side or more puts that are under way at the same time never overlap, whatever the shuffle, the number of workers and the interleaving |
| `FenceWork.SmallImagesOverlap` | MPICH2/cur/examples/pmandel_fence.c:572-679 | in every smaller image, and for every shuffle, there is a run with 400 workers in which two puts under way overlap |
| `FenceWork.RunsEnd` | MPICH2/cur/examples/pmandel_fence.c:435-532 | every interleaving ends |
| `FenceWork.Progress` | MPICH2/cur/examples/pmandel_fence.c:435-532 | no process waits in a fence for ever |
| `FenceWork.RoundsNeeded` | MPICH2/cur/examples/pmandel_fence.c:435-532 | the rounds end after exactly 400 divided by the workers, rounded up |
| `FenceWork.StuckMeansComplete` | MPICH2/cur/examples/pmandel_fence.c:435-679 | whatever the pieces are, a run that cannot go on has passed the exact number of fences in every process and has drawn and shown every piece once, in order |
| `FenceWork.EveryRunComputesTheImage` | MPICH2/cur/examples/pmandel_fence.c:435-679 | every run that cannot go on has passed exactly 3 * ceil(400 / workers) + 2 fences in every process, has drawn and shown every piece once and in order, and has computed the image |
| `StatsFormat.ByteOrderRoundTrip` | HDTraceWritingCLibrary/src/hdStats.c:964-982 | a bit pattern written most significant byte first is read back |
| `StatsFormat.FirstByteWeighs` | HDTraceWritingCLibrary/src/hdStats.c:964-982 | the first byte of a value is worth most |
| `StatsFormat.SecondsFirst` | HDTraceWritingCLibrary/src/hdStats.c:1550-1600 | a time is its seconds and then its nanoseconds |
| `StatsFormat.ReadValuesRoundTrip` | HDTraceWritingCLibrary/tools/hdStatsPrint.c:157-249 | bytes of the right number are the bytes of exactly the values they are read as |
| `StatsFormat.HeaderRoundTrip` | HDTraceWritingCLibrary/src/hdStats.c:585-635 | the length field has exactly five digits exactly when the header has fewer than 100000 characters, and the reader finds the header and what follows it |
| `StatsFormat.FileRoundTrip` | HDTraceWritingCLibrary/tools/hdStatsPrint.c:110-249 | a reader that is told the types recovers the start time and every time and value in order |
| `StatsFormat.CutEntries` | HDTraceWritingCLibrary/tools/hdStatsPrint.c:259-280 | of complete entries and a shorter tail the reader reports the complete ones and notices the tail exactly when it has four bytes or more |
| `StatsFormat.TypeWidths` | HDTraceWritingCLibrary/src/hdStats.c:1366-1395 | a value has 32 or 64 bits, as its type says |
| `StatsFormat.BeforeHeader` | HDTraceWritingCLibrary/tools/hdStatsPrint.c:110-156 | blanks in front of the length field do not matter, anything else but a digit there is reported |
| `StatsFormat.CutHead` | HDTraceWritingCLibrary/tools/hdStatsPrint.c:110-170 | a file cut off inside its header is reported as broken; one cut off inside its start time holds nothing, and the cut goes unnoticed below four bytes |
| `StatsFormat.ReportIsTheBody` | HDTraceWritingCLibrary/tools/hdStatsPrint.c:110-280 | whatever bytes stand behind the start time, they are those of the entries that are reported and a tail too short for one more; the end counts as normal exactly when the tail is shorter than four bytes |
| `StatsFormat.CutFile` | HDTraceWritingCLibrary/tools/hdStatsPrint.c:110-249 | wherever a file is cut off behind its start time, the reader recovers exactly the complete entries |
| `StatsFormat.ReadOne` | HDTraceWritingCLibrary/tools/hdStatsPrint.c:171-248 | the loop over one entry's values reads them all or finds the file's end inside |
| `StatsFormat.ReadStats` | HDTraceWritingCLibrary/tools/hdStatsPrint.c:110-249 | the whole reading loop reports exactly what the reader specification says |
| `StatsHeaders.EscapeRoundTrip` | HDTraceWritingCLibrary/src/util.c:108-165 | escaping the four characters of markup in a name loses nothing |
| `StatsHeaders.ColumnRoundTrip` | HDTraceWritingCLibrary/src/hdStats.c:500-524 | the tag of a value tells its name, type, unit and grouping, whatever they are called: a reader with the format's own words finds exactly these and what follows the tag |
| `StatsHeaders.ColumnsRoundTrip` | HDTraceWritingCLibrary/src/hdStats.c:417-530 | the tags of a header tell the columns, all of them and in order |
| `StatsHeaders.DescriptionRoundTrip` | HDTraceWritingCLibrary/src/hdStats.c:281-362 | a whole header tells the labels of its path, the group's name and the columns; labels, which are not escaped, must not hold a quote |
| `StatsGroups.RegisterKeeps` | HDTraceWritingCLibrary/src/hdStats.c:417-530 | a registered value has its type and its tag in the header, or the header has no room and the type is taken without its tag |
| `StatsGroups.EmptyIsRefused` | HDTraceWritingCLibrary/src/hdStats.c:423-447 | a value without a name, or with an empty unit or grouping, is refused without effect, and nothing else is for that reason |
| `StatsGroups.CommitWritesHeader` | HDTraceWritingCLibrary/src/hdStats.c:563-638 | committing writes a header whose length field counts it exactly, and the start time; it fails exactly when the closing tags do not fit or the file refuses a byte |
| `StatsGroups.ValueFits` | HDTraceWritingCLibrary/src/hdStats.c:1686-1744 | the buffer offset is 8 plus the lengths of the values so far, the next value fits, and the entry is complete exactly behind the last column in front of a string |
| `StatsGroups.ValueIsNoted` | HDTraceWritingCLibrary/src/hdStats.c:1686-1744 | a value is taken exactly when the group is enabled and the value has the next column's type; the entry goes to the file exactly with its last value |
| `StatsGroups.EntryIsNoted` | HDTraceWritingCLibrary/src/hdStats.c:874-930 | a whole entry is taken exactly when the group is enabled, no entry is begun and the length is right; its bytes are those of the values a reader will find |
| `StatsGroups.RunIsNoted` | HDTraceWritingCLibrary/src/hdStats.c:772-930 | over every run of enabling, disabling, values and entries the file is the head followed by the completed entries; a run that stops leaves a proper part of the entry it stopped in |
| `StatsGroups.ReaderRecoversRun` | HDTraceWritingCLibrary/src/hdStats.c:563-930 | from commit to the end of any run the reader recovers the start time and exactly the completed entries |
| `StatsGroups.ValuesMakeEntry` | HDTraceWritingCLibrary/src/hdStats.c:1686-1744 | writing one value of every column, in order, records exactly one entry with the time of the first |
| `StatsGroups.TypedWritersComplete` | HDTraceWritingCLibrary/src/hdStats.c:1068-1089 | typed writers can complete an entry exactly when the group has no unsigned column, because the writer for unsigned values writes signed ones |
| `StatsGroups.EmptyEntryBlocks` | HDTraceWritingCLibrary/src/hdStats.c:874-930 | an accepted entry without bytes is counted but never reaches the file, and then every entry is refused |
| `StatsGroups.StatsGroup.constructor` | HDTraceWritingCLibrary/src/hdStats.c:246-274 | a new group has an empty header behind the room for its length field |
| `StatsGroups.StatsGroup.OpenHeader` | HDTraceWritingCLibrary/src/hdStats.c:281-362 | the loops over the labels write exactly the opening tags, all of them, or creating the group fails: exactly when they do not fit |
| `StatsGroups.StatsGroup.Create` | HDTraceWritingCLibrary/src/hdStats.c:213-362 | a group is created exactly when it has a name and its opening tags fit, and its header then begins with them |
| `StatsGroups.StatsGroup.AppendFormat` | HDTraceWritingCLibrary/src/hdStats.c:1443-1497 | text that does not fit with its terminator is refused, and the used part of the buffer survives |
| `StatsGroups.StatsGroup.AddValue` | HDTraceWritingCLibrary/src/hdStats.c:417-530 | registers a value in the header buffer and the type array with the tag that `StatsHeaders.ColumnRoundTrip` reads back; empty names, units and groupings are refused |
| `StatsGroups.StatsGroup.CommitGroup` | HDTraceWritingCLibrary/src/hdStats.c:563-638 | commits as specified and replaces the header buffer by the entry buffer |
| `StatsGroups.StatsGroup.EnableGroup` | HDTraceWritingCLibrary/src/hdStats.c:772-785 | enables a committed group and tells whether that changed anything |
| `StatsGroups.StatsGroup.DisableGroup` | HDTraceWritingCLibrary/src/hdStats.c:808-821 | disables a committed group and tells whether that changed anything |
| `StatsGroups.StatsGroup.AppendValueToGroupBuffer` | HDTraceWritingCLibrary/src/hdStats.c:1686-1744 | appends a value as specified, inside the entry buffer, and keeps the position invariant |
| `StatsGroups.StatsGroup.WriteValue` | HDTraceWritingCLibrary/src/hdStats.c:964-1195 | the typed writers, with unsigned values handed to the signed writer |
| `StatsGroups.StatsGroup.WriteEntry` | HDTraceWritingCLibrary/src/hdStats.c:874-930 | writes a whole entry as specified, inside the entry buffer |
| `StatsGroups.StatsGroup.FlushGroupBuffer` | HDTraceWritingCLibrary/src/hdStats.c:1847-1887 | moves the buffer to the file or stops the group |
| `StatsGroups.StatsGroup.Finalize` | HDTraceWritingCLibrary/src/hdStats.c:1322-1361 | deletes the file exactly when a committed group has no entry, and leaves its content as it is otherwise |
| `Sampling.StepIsMeasured` | ResourcesUtilizationTracingLibrary/src/tracing.c:614-628 | a valid step writes the measurements of the registered quantities, in order, exactly when no per-device disk statistic is traced without one of the disk totals; otherwise it writes too few |
| `Sampling.ColumnTells` | ResourcesUtilizationTracingLibrary/src/tracing.c:207-428 | for every machine and every choice of sources under that condition, each value of a step is the measurement that its column's name stands for in one table of names, and unit and grouping are those of the table; interfaces and devices must have different names, and none the name `EXT` |
| `SampleColumns.NameTells` | ResourcesUtilizationTracingLibrary/src/tracing.c:207-428 | every column's name determines its measurement, unit and grouping |
| `Sampling.SchemaAgrees` | ResourcesUtilizationTracingLibrary/src/tracing.c:207-428 | the values written by a valid step have exactly the registered types, column by column, exactly when no per-device disk statistic is traced without one of the disk totals; otherwise a step writes too few values |
| `Sampling.GroupsAgree` | ResourcesUtilizationTracingLibrary/include/RUT.h:145-234 | they agree for every choice of the source groups that the macros set, on every machine |
| `Sampling.GroupsChoose` | ResourcesUtilizationTracingLibrary/include/RUT.h:145-234 | with whole groups set exactly the quantities of these groups that the machine has become columns |
| `Sampling.MostColumns` | ResourcesUtilizationTracingLibrary/include/RUT.h:138-143 | no choice of sources makes more columns than the documented maximum and one for the context switches, which all sources reach |
| `Sampling.DocumentedMaximum` | ResourcesUtilizationTracingLibrary/include/RUT.h:138-143 | the documented maximum holds for every choice of sources exactly on machines that do not count context switches |
| `Sampling.StepMakesOneEntry` | ResourcesUtilizationTracingLibrary/src/tracing.c:614-628 | a valid step makes exactly one entry: its values, with the time of the first write |
| `Sampling.StepsMakeEntries` | ResourcesUtilizationTracingLibrary/src/tracing.c:614-628 | any number of steps make exactly one complete entry each, but for the first when there are no old values |
| `Sampling.ColumnsShift` | ResourcesUtilizationTracingLibrary/src/tracing.c:1047-1050 | what goes wrong otherwise, on a concrete choice of sources: two steps make one entry whose disk column holds a memory value |
| `Sampling.TotalsAreSums` | ResourcesUtilizationTracingLibrary/src/tracing.c:929-1035 | the traffic totals are the sums of the interfaces' own columns modulo 2^64 |
| `SampleColumns.RegisterColumns` | ResourcesUtilizationTracingLibrary/src/tracing.c:207-428 | the registration loops register exactly the columns of which `Sampling.ColumnTells` speaks, with their names, types, units and groupings |
| `SampleColumns.RegisterInterfaces` | ResourcesUtilizationTracingLibrary/src/tracing.c:293-319 | the loop over interfaces registers their columns and then the totals |
| `SampleColumns.RegisterDisks` | ResourcesUtilizationTracingLibrary/src/tracing.c:336-428 | the loops over devices and statistics register the disk columns |
| `Sampling.Sampler.StepCpu` | ResourcesUtilizationTracingLibrary/src/tracing.c:686-871 | writes exactly the specified values, and nothing while the old values are not valid |
| `Sampling.Sampler.StepMem` | ResourcesUtilizationTracingLibrary/src/tracing.c:883-917 | writes exactly the specified values, and nothing while the old values are not valid |
| `Sampling.Sampler.StepNet` | ResourcesUtilizationTracingLibrary/src/tracing.c:929-1035 | writes exactly the specified values with totals kept in 64-bit arithmetic |
| `Sampling.Sampler.StepHdd` | ResourcesUtilizationTracingLibrary/src/tracing.c:1047-1137 | writes exactly the specified values, none when neither total is traced |
| `Sampling.Sampler.DoTracingStep` | ResourcesUtilizationTracingLibrary/src/tracing.c:614-628 | one step writes its four parts in order; afterwards there are old values |
| `Counters.TrafficIsMeasured` | ResourcesUtilizationTracingLibrary/src/tracing.c:964-977 | the traffic value is the traffic since the last step exactly when the counter has not started again at zero; when it has, exactly one byte is missing |
| `Counters.RunIsMeasured` | ResourcesUtilizationTracingLibrary/src/tracing.c:964-977 | over any run the values add up to the whole traffic less one byte for each time the counter has started again |
| `Counters.Difference` | ResourcesUtilizationTracingLibrary/src/tracing.c:964-977 | the program's 64-bit steps compute that value |
| `Counters.CountIsMeasured` | ResourcesUtilizationTracingLibrary/src/tracing.c:1112-1117 | the correction of the other counters is never right: their value is the difference exactly when the counter has not started again |
| `SamplerThread.StepKeeps` | ResourcesUtilizationTracingLibrary/src/tracing.c:488-581 | every step of the thread, the controller or a spurious wake-up keeps the invariant, and the program's assertions hold |
| `SamplerThread.ReachableStates` | ResourcesUtilizationTracingLibrary/src/tracing.c:488-581 | in every interleaving: a thread asleep and not notified has no request waiting, its flag agrees with the group, samples are taken only while the group is enabled, and the group is finalised once, at the end |
| `SamplerThread.SampleIsWritten` | ResourcesUtilizationTracingLibrary/src/tracing.c:614-628 | in every interleaving the sample that is due is written exactly when the thread has not slept since the last one |
| `SamplerThread.SamplesInARow` | ResourcesUtilizationTracingLibrary/src/tracing.c:614-628 | a sample directly behind a sample is always written |
| `SamplerThread.MostAreWritten` | ResourcesUtilizationTracingLibrary/src/tracing.c:488-628 | for each time the group is enabled one sample at most goes unwritten |
| `SamplerThread.RequestsStand` | ResourcesUtilizationTracingLibrary/src/RUT.c:381-501 | in every interleaving the last request to start or stop stands, and so does the request to end: nothing that the thread does loses one |
| `SamplerThread.EveryRunCanEnd` | ResourcesUtilizationTracingLibrary/src/RUT.c:381-393 | from wherever it stands every run can be brought to its end, with the thread finished and joined |
| `SamplerThread.TerminationTakesEffect` | ResourcesUtilizationTracingLibrary/src/RUT.c:381-393 | once termination is requested the thread ends by itself, with the group disabled and finalised |
| `SamplerThread.AtMostSeven` | ResourcesUtilizationTracingLibrary/src/RUT.c:381-393 | the bound for that is seven of the thread's own steps |
| `SamplerThread.NothingDelaysTheEnd` | ResourcesUtilizationTracingLibrary/src/RUT.c:381-393 | no other action can hold the end up |
| `SamplerThread.EveryRunEnds` | ResourcesUtilizationTracingLibrary/src/RUT.c:381-393 | in every run after the request in which the thread gets its seven steps, whatever else happens in between, it ends with the group disabled and finalised once |
| `SamplerThread.StartTakesEffect` | ResourcesUtilizationTracingLibrary/src/RUT.c:481-501 | starting takes effect within three steps of the thread |
| `SamplerThread.StopTakesEffect` | ResourcesUtilizationTracingLibrary/src/RUT.c:481-501 | stopping takes effect within six steps of the thread: the group is disabled, the thread sleeps, the old values are stale |
| `SamplerFiles.RegistrationFits` | HDTraceWritingCLibrary/src/hdStats.c:417-530 | any columns are all taken, in order, exactly when nothing they are called is empty, they are at most 256 and their tags fit the header buffer |
| `SamplerFiles.SamplerPrepares` | ResourcesUtilizationTracingLibrary/src/tracing.c:207-434 | registering and committing prepare the sampler's group exactly when the columns are at most 256, header, tags and closing tags fit, and the file takes them |
| `SamplerFiles.LogIsNoted` | ResourcesUtilizationTracingLibrary/src/tracing.c:488-628 | whatever the thread does to its group in a proper order records exactly one entry for each sample written |
| `SamplerFiles.FileOfRun` | ResourcesUtilizationTracingLibrary/src/tracing.c:488-628 | end to end: in every interleaving of thread and controller a reader that knows nothing but the file finds the path, the group, all columns, the start time and exactly one entry for every sample written, in order; these are all samples but one at most for each time the group was enabled; finalising deletes the file exactly when no sample was written; when the file refuses a byte, the reader finds the entries of the first samples |
| `SamplerFiles.FileTells` | ResourcesUtilizationTracingLibrary/src/tracing.c:207-628 | each value in it is what the name of its column stands for, measured by the sample to which its entry belongs |
| `Classifier.LexCovers` | HDMPIwrapper/dll-wrapper/CFunctionListExtractor/c-character-classifier.c:62-102 | the reference lexer's tokens make up the whole text |
| `Classifier.ClassifierLexes` | HDMPIwrapper/dll-wrapper/CFunctionListExtractor/c-character-classifier.c:62-102 | on every text the classifier gives each character the kind of its token in a lexer whose block comments may close with the star they open with |
| `Classifier.SameTokens` | HDMPIwrapper/dll-wrapper/CFunctionListExtractor/c-character-classifier.c:89-91 | that lexer finds the tokens of the language exactly when no comment opens as `/*/` in front of further text |
| `Classifier.SameTokensToo` | HDMPIwrapper/dll-wrapper/CFunctionListExtractor/c-character-classifier.c:89-91 | the same condition on the language's own tokens: no comment that goes on behind them begins with these three characters |
| `Classifier.ClassesAreTokens` | HDMPIwrapper/dll-wrapper/CFunctionListExtractor/c-character-classifier.c:62-102 | for texts without such a token the class of every character is the kind of the language's token it belongs to |
| `Classifier.PlainTextsAreTokens` | HDMPIwrapper/dll-wrapper/CFunctionListExtractor/c-character-classifier.c:62-102 | so it is for every text in which `/*/` does not occur |
| `Classifier.DirectiveBegins` | HDMPIwrapper/dll-wrapper/CFunctionListExtractor/c-character-classifier.c:62-102 | the sign begins a directive exactly when nothing but blanks and tabulators stand in front of it on its line |
| `Classifier.LevelsCount` | HDMPIwrapper/dll-wrapper/CFunctionListExtractor/c-character-classifier.c:75-80 | the three levels are opening minus closing brackets among the characters of normal text |
| `Classifier.CharacterClassifier.Classify` | HDMPIwrapper/dll-wrapper/CFunctionListExtractor/c-character-classifier.c:62-102 | the step function with its countdown, escape and line-start flags |
| `DeclarationDetector.BodyIsSkipped` | HDMPIwrapper/dll-wrapper/CFunctionListExtractor/c-function-declaration-detector.c:207-239 | inside the body of a definition, or of an item given up, nothing is copied until its block closes; then the detector is ready again |
| `DeclarationDetector.BodiesExchange` | HDMPIwrapper/dll-wrapper/CFunctionListExtractor/c-function-declaration-detector.c:139-252 | replacing any balanced top-level block by another one does not change the output |
| `DeclarationDetector.ItemDone` | HDMPIwrapper/dll-wrapper/CFunctionListExtractor/c-function-declaration-detector.c:234-239 | behind a complete item the detector is as good as new, but for the line start |
| `DeclarationDetector.LineStartIrrelevant` | HDMPIwrapper/dll-wrapper/CFunctionListExtractor/c-function-declaration-detector.c:139-252 | whether a line starts matters only to an item whose first character that is not blank is `#` |
| `DeclarationDetector.ItemsAreIndependent` | HDMPIwrapper/dll-wrapper/CFunctionListExtractor/c-function-declaration-detector.c:139-252 | the output for a sequence of complete items is the concatenation of the outputs for each alone |
| `Definitions.DefinitionIsCopied` | HDMPIwrapper/dll-wrapper/CFunctionListExtractor/c-function-declaration-detector.c:139-252 | from a definition exactly its declaration is copied, with white space normalised and without the words that contain extern (`Definitions.WholeHead`, `Definitions.LostWord` say what that is), unless what is left of its head contains static or inline; then nothing is |
| `Definitions.BlanksStay` | HDMPIwrapper/dll-wrapper/CFunctionListExtractor/c-function-declaration-detector.c:71-90 | between two neighbouring other characters one blank is copied exactly when white space stood between them, the left one is no opening bracket or closing parenthesis and the right one no closing parenthesis |
| `Definitions.FirstCharacter` | HDMPIwrapper/dll-wrapper/CFunctionListExtractor/c-function-declaration-detector.c:71-90 | white space at the beginning leaves nothing |
| `Definitions.TidyGrows` | HDMPIwrapper/dll-wrapper/CFunctionListExtractor/c-function-declaration-detector.c:71-90 | the beginning of the copy is settled with the beginning of the text, and white space at the end leaves nothing |
| `Definitions.WholeHead` | HDMPIwrapper/dll-wrapper/CFunctionListExtractor/c-function-declaration-detector.c:139-198 | a head of which no word is left out is copied with its parameter list as one text, so that the laws of the blanks hold across both |
| `Definitions.LostWord` | HDMPIwrapper/dll-wrapper/CFunctionListExtractor/c-function-declaration-detector.c:149-158 | in place of a word that is left out stands one blank, in front of the copy of what follows the word |
| `Definitions.HeadIsWhole` | HDMPIwrapper/dll-wrapper/CFunctionListExtractor/c-function-declaration-detector.c:149-158 | nothing of the head is left out exactly when no word with white space behind it contains extern; the word in front of the parenthesis may |
| `Definitions.TidyIsNormalForm` | HDMPIwrapper/dll-wrapper/CFunctionListExtractor/c-function-declaration-detector.c:71-90 | normalising keeps every other character in order and leaves only single blanks, none next to the inner side of a bracket or behind a closing parenthesis |
| `ItemTexts.CommentsVanish` | HDMPIwrapper/dll-wrapper/CFunctionListExtractor/c-function-declaration-detector.c:139-252 | comments and directives are as if they were not there: whatever they say, exactly the same is copied from the text without them |
| `ItemTexts.OutputOfItem` | HDMPIwrapper/dll-wrapper/CFunctionListExtractor/c-function-declaration-detector.c:139-252 | what an item adds is decided at its end: nothing at a semicolon, and at the end of a block the declaration in front of it, if the item has come that far |
| `ItemTexts.SpoiledItem` | HDMPIwrapper/dll-wrapper/CFunctionListExtractor/c-function-declaration-detector.c:139-252 | nothing is copied of an item with a literal or a block in front of its parameter list's end, or with anything but white space and a block behind it |
| `ItemTexts.SemicolonCopiesNothing` | HDMPIwrapper/dll-wrapper/CFunctionListExtractor/c-function-declaration-detector.c:234-239 | an item that ends with a semicolon is not copied, whatever it declares |
| `DeclarationDetector.FunctionDeclarationDetector.PushChar` | HDMPIwrapper/dll-wrapper/CFunctionListExtractor/c-function-declaration-detector.c:139-252 | one character of lookahead: what is processed is the waiting character, as specified |
| `DeclarationDetector.FunctionDeclarationDetector.WriteNext` | HDMPIwrapper/dll-wrapper/CFunctionListExtractor/c-function-declaration-detector.c:71-90 | appends the waiting character with the white space it needs, of which `Definitions.BlanksStay` speaks |
| `DeclarationDetector.Extract` | HDMPIwrapper/dll-wrapper/CFunctionListExtractor/main.c:148-153 | feeding a whole text and its end yields the specified output |
| `TypeIds.LookUp` | HDMPIwrapper/src/hash_tables.c:355-378 | a look-up ends on every finite graph of types, keeps every number given before and only appends lines |
| `TypeIds.GetKeeps` | HDMPIwrapper/src/hash_tables.c:355-378 | a look-up, also in the middle of other descriptions, keeps numbers unique, lines unique, and every number in a line behind its own line |
| `TypeIds.RunKeeps` | HDMPIwrapper/src/write_info.c:116-221 | over every run of look-ups every numbered type has exactly one line, which tells the numbers of its parts, and each of these has its line further up |
| `TypeIds.NumbersAreConsecutive` | HDMPIwrapper/src/hash_tables.c:355-378 | over every run from an empty table the numbers are those from 0 on, one for each line, none left out |
| `TypeIds.ReadBack` | HDMPIwrapper/src/write_info.c:116-221 | reading a number back from the lines gives the type's shape |
| `TypeIds.FileDeterminesTypes` | HDMPIwrapper/src/write_info.c:116-221 | from an empty table on, the lines determine how every looked-up type is built |
| `TypeIds.RemoveKeeps` | HDMPIwrapper/src/hash_tables.c:380-383 | freeing a type forgets its number; its line stays and the number is never given again |
| `TypeIds.FreeLeavesDescribed` | HDMPIwrapper/src/hash_tables.c:380-383 | the lines of the other types go on telling the present numbers of their parts exactly when the freed type is a part of none of them |
| `TypeIds.HistoryKeeps` | HDMPIwrapper/src/hash_tables.c:355-383 | over every history of look-ups and frees, with handles that are given again: numbers and lines stay unique, no number is given twice, lines stay, and reading back the number of a numbered type gives its present shape, also when its parts have been freed |
| `TypeIds.TypeTable.GetTypeId` | HDMPIwrapper/src/hash_tables.c:355-378 | the mutually recursive methods over the table, the counter and the file do exactly this |
| `TypeIds.TypeTable.WriteTypeInfo` | HDMPIwrapper/src/write_info.c:116-221 | the numbers of the parts are looked up while the line is put together |
| `BlockMessages.ReadsFrame` | PowerTracer/src/LMG.c:369-515 | unless the line has an error while the data of a block is read, the reader of a message's rest either yields exactly the rest of the blocks with exactly their frame consumed or owns up to missing bytes or memory |
| `BlockMessages.FrameRoundTrip` | PowerTracer/src/LMG.c:369-515 | whatever bytes the blocks hold and however the line cuts them up: unless the line has an error while the data of a block is read, the reader never returns anything but their data with exactly this message consumed; on a line that brings all bytes it returns them exactly when the message does not begin with an empty block or the C library can reallocate to no bytes |
| `BlockMessages.AcceptedIsFramed` | PowerTracer/src/LMG.c:369-515 | on every line, well framed or not: a message is returned only when the bytes that were consumed are blocks and a newline, and then it is exactly the data of these blocks, unless the line had an error inside one; of a size only the digits at its beginning count |
| `BlockMessages.LineStops` | PowerTracer/src/LMG.c:369-515 | a line that stops behind whole blocks is reported as no message if they were empty, and as a broken one otherwise |
| `BlockMessages.EmptyBlockIsRefused` | PowerTracer/src/LMG.c:496-496 | a concrete valid message of one empty block that the program gives up where the C library cannot: the end of the message stays on the line |
| `BlockMessages.MessageIsTrustworthy` | PowerTracer/src/LMG.c:499-513 | a message that is returned is the one that was sent, whatever the memory held, exactly when the line had no error while the data of a block was read |
| `BlockMessages.ErrorsNoticed` | PowerTracer/src/LMG.c:499-507 | on every line, well framed or not, the reader notices as many errors as it takes exactly when none falls into the data of a block: there the negative result is compared with the size as an unsigned number |
| `BlockMessages.NoErrorInData` | PowerTracer/src/LMG.c:499-507 | a line without any error meets that condition |
| `BlockMessages.ErrorPassesUnseen` | PowerTracer/src/LMG.c:499-507 | a concrete line on which the reader returns a byte that was never sent and leaves the end of the message behind |
| `BlockMessages.MessagesInStep` | PowerTracer/src/LMG.c:369-515 | messages back to back on a line that brings all bytes stay in step, also behind one that is too long for the buffer, exactly when none begins with an empty block or the C library can reallocate to no bytes |
| `BlockMessages.SteadyRead` | PowerTracer/src/serial.c:319-380 | on a steady line everything asked for arrives, however it is cut up |
| `BlockMessages.SerialPort.ReadBytes` | PowerTracer/src/serial.c:319-380 | the loop accumulates partial reads as specified; also a read that fails has stored what came before the error, and nothing else is written |
| `BlockMessages.ReadBlockHeader` | PowerTracer/src/LMG.c:406-491 | reads the two numbers of a block as specified |
| `BlockMessages.ReadBinaryMessage` | PowerTracer/src/LMG.c:369-515 | the loop over blocks with its growing buffer, which cannot always be grown to no bytes, and with its comparison of a signed with an unsigned number, returns the specified outcome and copies the message |
| `PowerTraces.CreateAction` | PowerTracer/src/conf.c:441-469 | a trace's action is its queries joined by semicolons, its size the size of their answers in the mode |
| `PowerTraces.ProgramAction` | PowerTracer/src/LMG.c:148-159 | the script is `ACTN` and all queries, joined by semicolons |
| `PowerTraces.OrderWords` | PowerTracer/src/tracing.c:71-75 | turns the words of one trace's part round in place and leaves the rest of the buffer alone |
| `PowerTraces.TraceIteration` | PowerTracer/src/tracing.c:66-103 | every statistics trace is given exactly its own part of the answer, with its words turned round |
| `PowerTraces.EachTraceGetsItsReadings` | PowerTracer/src/tracing.c:66-103 | from the script to the entries: the device's answer to the script is dealt out so that each trace gets an entry of exactly its group's length, and a reader of the group finds the readings of the trace's own channel in the order of its columns |
| `PowerTraces.ColumnsNameQueries` | PowerTracer/src/conf.c:404-459 | query and column belong together, place by place: the query and the unit are those of the column's name |
| `PowerTraces.ColumnHoldsAnswer` | PowerTracer/src/tracing.c:66-103 | each value of a trace's entry is the device's answer to the query for the column's name and the trace's channel, its four bytes read low byte first |
| `PowerTraces.GroupTakesEntry` | PowerTracer/src/conf.c:404-415 | the group's length check passes for such an entry |
| `PowerTraces.PositionsAreDue` | PowerTracer/src/tracing.c:66-103 | with other traces in the list the parts are found where they are exactly when the stale step they are passed with equals their size |
| `Paths.PathString` | HDTraceWritingCLibrary/src/hdTopo.c:272-300 | the labels joined by underscores, the last separator replaced by the terminator |
| `Paths.ParsePath` | PowerTracer/src/conf.c:63-96 | cuts a path string at its separators |
| `Paths.PathRoundTrip` | PowerTracer/src/conf.c:63-96 | the labels come back exactly when none of them holds an underscore |
| `Paths.GenerateFilename` | HDTraceWritingCLibrary/src/common.c:146-195 | prefix and project, a label for each level, the group, the suffix |
| `Paths.SplitFilename` | HDMPIwrapper/scripts/project-description-merger.py:87-97 | the last three fields stand for themselves, everything in front of them is the project; fewer than four fields are an error |
| `Paths.FilenameRoundTrip` | HDMPIwrapper/scripts/project-description-merger.py:73-97 | project, host, rank and thread come back, whatever underscores the project has, exactly when the three labels have none |
| `Fields.SplitJoin` | PowerTracer/src/conf.c:63-96 | splitting undoes joining when no field holds the separator |
| `CommMerge.TakeFirst` | HDMPIwrapper/scripts/project-description-merger.py:393-406 | takes the first record left with a mapping out of a file, or finds that there is none |
| `CommMerge.CollectGroup` | HDMPIwrapper/scripts/project-description-merger.py:390-406 | collects the record that is next in turn from every file of a member, and exactly these |
| `CommMerge.CommunicatorList` | HDMPIwrapper/scripts/project-description-merger.py:372-410 | the loops print every record whose process belongs to the communicator exactly once and no other record; one communicator for each occurrence number of each mapping, none twice, begun and named by the first record left |
| `CommMerge.EveryRecordOnce` | HDMPIwrapper/scripts/project-description-merger.py:372-410 | a record is printed exactly when its process belongs to the communicator, then once, and in the communicator of its mapping and occurrence number |
| `CommMerge.OneEntryPerMember` | HDMPIwrapper/scripts/project-description-merger.py:372-410 | when all members list a mapping equally often, each of its communicators has exactly one entry for every member |
| `CommMerge.KeysOfMapping` | HDMPIwrapper/scripts/project-description-merger.py:372-410 | and when only members describe it there is one communicator for each time they list it |
| `CommMerge.OrderIsIrrelevant` | HDMPIwrapper/scripts/project-description-merger.py:383-392 | whatever order the files come in, there are communicators for the same mappings and occurrence numbers with the same entries, but for communicators without entries; the printed names are another matter |
| `CommMerge.NameOfGroup` | HDMPIwrapper/scripts/project-description-merger.py:383-388 | the printed name does not depend on the order of the files when all records of the mapping agree on it |
| `CommMerge.NameOfFirst` | HDMPIwrapper/scripts/project-description-merger.py:383-388 | otherwise it does: of two members' files the first one gives the name |
| `CommMerge.EmptyGroups` | HDMPIwrapper/scripts/project-description-merger.py:384-388 | a communicator without entries comes only from a process that describes one it does not belong to |
| `CommMerge.OrderOfStrangers` | HDMPIwrapper/scripts/project-description-merger.py:383-392 | then the order of the files does matter: with two such files it decides whether there is an empty communicator |

## Left out

- TraceWriters.TraceWriter.LogStateStart: does not say what the specification's message list is after a failed write; then only the switched-off flag and the well-formedness of the trace are stated.
- TraceWriters.TraceWriter.SetEnabled: toggling inside an open state is not modelled; the program does not prevent it, but the depth counter and the open states then no longer belong together.
- StatsGroups.StatsGroup.AppendValueToGroupBuffer: the calls that take a time stamp as an argument (`hdS_commitGroupAtTimestamp` and its companions) are not modelled, only those that read the clock.
- FenceWork.StepKeeps: a placeholder item is a round without computation and without a put; in the program it is the piece -1..-1, -1..-1: one pixel is computed for (-1, -1) and put at a negative displacement, outside the root's window (`FenceWork.PlaceholdersExactly` says when that happens).
- DeclarationDetector.Extract: a text with NUL characters is treated like any other; the program prints its streams as C strings, which end at a NUL.
- Definitions.DefinitionIsCopied: is about heads and parameter lists without comments and directives; `ItemTexts.CommentsVanish` takes these out, and `ItemTexts.SpoiledItem` is about literals.
- PowerTraces.CreateAction: channels of one digit are assumed, as the fixed buffers of the program demand (its configuration allows 1 to 4); longer numbers are joined here and cut or written past the end there.
- BlockMessages.ReadBinaryMessage: a number that does not begin with a digit is reported as `Unscanned`, where the program goes on with whatever its variable held; signs and blanks in front of numbers count as such.
- StatsGroups.StatsGroup.AddValue: names, units and groupings are assumed to fit the fixed arrays for their escaped forms; the length checks of the program are not modelled.
- TraceTexts.SessionIsReadable: processor speed and model in the first line are stepped over.
- StatsFormat.ReadStats: does not model the printing of the values of an entry that turns out to be cut off, nor a header length with a sign; a length field that cannot be read ends the reading here, where the program reports it and goes on with whatever its variable held.
- Sampling.Sampler.StepNet: the measured values are inputs of the steps; the differences of the system's counters from which they come are the subject of `Counters` alone, and the load of the processors is not modelled.
- Sampling.Sampler.StepHdd: block devices that change their line during a run are not modelled.
- TypeIds.TypeTable.WriteTypeInfo: the text of a line apart from the numbers is copied from the type as a whole; its formatting and the cut of lines longer than 16 KiB are not modelled.
- Paths.GenerateFilename: the name is assumed to fit its buffer; the overflow checks are not modelled.
- CommMerge.CommunicatorList: the groups are the data that the XML text is printed from; several files of one rank are allowed, but `CommMerge.OneEntryPerMember` needs one file per rank.
- Memory that runs out, file descriptors, options from the environment, and messages to the user.
- The processor-state and database variants of the resource sampler.
- The power tracer's thread: its end does not wake the thread up, so nothing like `SamplerThread` holds of it.
- The replay tool, whose nesting counters are never stored back; the reader in `LogReader` takes its place.
- Topology objects, option tables, wrapper generators, benchmarks, image output and the fractal arithmetic.
