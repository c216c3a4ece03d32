# Sigyn, modelled and proved

Sigyn is an S3-backed log store. An ingester buffers log entries, keeps a write-ahead log,
flushes batches as compressed chunk objects and writes one small index file per chunk. A
query engine lists index files by day, prunes by time, service and labels, and filters the
chunks it fetches. An exporter reads chunks by key prefix and bulk-indexes the matching
entries elsewhere.

This project models that logic in Dafny and proves what it keeps, over all inputs and all runs.

- **The ingest pipeline** is a transition system (`Pipeline.dfy`): one step per atomic action
  of Add, the ticker, `flushLoop`, the overflow goroutines, the flusher, Stop, a crash and a
  restart. A sequence of steps is one interleaving. The class `Buffer.LogBuffer`, the class
  `Wal.Log` and the flush methods of `Buffer.dfy` are the imperative code, each method proved
  to make exactly the steps of that system. `Conservation.dfy`, `Durability.dfy` and
  `IndexTruth.dfy` hold the invariants over every run; `Flushed.dfy` joins them to the readers:
  what is flushed is stored, and what was accepted before a clean Stop is what a scan, a query
  and an export find.
- **The label index** is an accelerator for a plain scan. `Keys.dfy`, `KeyRouting.dfy`,
  `LabelSets.dfy` and `Query.dfy` model both of its sides; `EndToEnd.dfy` proves when the
  indexed query and the scan agree, as an if-and-only-if, and `Visibility.dfy` derives the
  checkable hypotheses. `Witnesses.dfy` gives runs that show why they are needed: each stores a
  chunk that holds a match, and the query comes back empty.
- **The smaller machines**: export batching and selection (`Exporter.dfy`, `ExportScan.dfy`),
  the export pool and registry (`Pool.dfy`), the selector parser (`Parser.dfy`), the live-tail
  broker (`Broker.dfy`) and retry (`Retry.dfy`).

`dafny verify dfyconfig.toml` checks everything.

## How to read the model

- A Go string or byte slice is a sequence with one element per byte. A timestamp is an integer
  number of nanoseconds since 1970; a day is floor division. The calendar is Go's proleptic
  Gregorian one, computed and proved, not assumed.
- JSON and compression are a record of functions (`Lines.Codec`). The theorems carry what they
  need of it: an encoded entry is one non-empty line and decodes to itself (`LineCodec`),
  decompression inverts compression, an index file decodes to the chunk it was made from and
  compressed data is not an index file (`CodecOk`), an index file is not a gzip stream
  (`ExportCodecOk`). `ExportScan.CodecLawsConsistent` shows that they can be met together.
- A uuid is 36 characters without '/' and '.', and never drawn twice: a flush starts only with
  an id that no flush of any earlier or present process used, and a subscriber gets an id no
  subscriber had. `IndexTruth.BucketTruth` and everything built on it rests on that.
- What the outside world does is a parameter of a step or a method: which writes fail, are torn
  or land although they report an error, which uuid is drawn, which order a map is iterated in,
  when the context is cancelled, when the process dies.
- Where the code does not give a property unconditionally, the theorem is an equivalence with
  the exact condition, and a witness lemma gives an input or a run on the wrong side of it.

## Where the code and its documentation differ

The model follows the code.

- The repository's `README.md:490` and `internal/ingester/wal.go:17` say the log is truncated after a successful
  flush. Only Stop truncates it, whatever became of the flushes
  (`internal/ingester/buffer.go:269-275`); `Durability.StopCanLose` is a run that loses an entry.
- The repository's `README.md:498` says a failed flush keeps the buffer. The buffer is cleared at dispatch
  (`internal/ingester/buffer.go:201-203`) and a failed batch only remains in the log.
- The overflow flush is called synchronous but runs in a goroutine nobody waits for
  (`internal/ingester/buffer.go:210-212`), so `Conservation.StopFlushesAll` needs its second
  condition.
- Replayed entries do not count towards the size estimate (`internal/ingester/buffer.go:76-78`).
- After a failed write the JSON encoder keeps failing until Reset replaces it
  (`internal/ingester/wal.go:41-44`); `Wal.WalState.broken` is that.
- One line of 1 MiB or more makes Recover return nothing at all (`internal/ingester/wal.go:83-85`).
- Unsubscribe does not close the channel (`internal/ingester/broker.go:42-49`).
- A retry with no attempts allowed returns success (`internal/retry/retry.go:28-51`).
- An export without a service lists no chunk of a slash-free service
  (`internal/exporter/exporter.go:202-205`).
- Stop of the export pool can return before a job it accepted starts
  (`internal/exporter/pool.go:35-45`).

## Model

| member | source | states |
|---|---|---|
| Conservation.Conserved | internal/ingester/buffer.go:133-251 | In every reachable state, recovered plus accepted entries are, as multisets, those buffered, queued, in flight, flushed and failed; dispatched batches followed by the buffer give them in arrival order; the queue is FIFO and holds at most four batches |
| Conservation.StepKeepsFlow | internal/ingester/buffer.go:62-276 | Every step of every goroutine, crash and restart included, keeps the conservation, order and batch invariants |
| Conservation.BatchExact | internal/ingester/buffer.go:155-205 | In every reachable state the batch's time bounds are its exact minimum and maximum, its service is the first entry's, its size estimate sums the entries not replayed and passes the limit only with a single entry; every dispatched batch is described exactly |
| Conservation.AddDispatches | internal/ingester/buffer.go:157-161 | Add dispatches the batch if and only if it holds something and the accepted entry would take it past the limit; to the queue while fewer than four batches wait, else to a goroutine of its own |
| Conservation.StopFlushesAll | internal/ingester/buffer.go:254-276 | When Stop has returned the buffer and queue are empty, and everything recovered or accepted was flushed if and only if no batch failed and no overflow goroutine is still running; Flushed.StoppedIsStored says what flushed means in the bucket |
| Batches.AddKeepsBatchOk | internal/ingester/buffer.go:155-188 | Adding an entry that fits, or to an empty batch, keeps the batch invariant |
| Batches.ReplayKeepsBatchOk | internal/ingester/buffer.go:76-78 | Replaying any entries into an empty buffer gives those entries, exact bounds and a size estimate of zero |
| Batches.EstimateSize | internal/ingester/buffer.go:122-129 | The loop over the labels sums the same size whatever the iteration order |
| Batches.SizeExact | internal/ingester/buffer.go:122-129 | The estimate is 80 and the three texts, and each label adds its key, its value and 6 |
| Batches.LevelsOrdered | internal/ingester/buffer.go:111-142 | debug and trace, info, warn and warning, error, fatal and critical ascend, in any case of the letters: an entry is accepted if and only if its level is not below the minimum; unknown levels count as the lowest; no minimum accepts all |
| Durability.RestartExact | internal/ingester/buffer.go:71-79 | After any run with torn writes, failed syncs, failed flushes and crashes, a restart rebuilds exactly the outcomes of the finished lines since the last truncation plus what the tail decodes to, or nothing if one line is over-long |
| Durability.CrashDurability | internal/ingester/buffer.go:144-163 | Over any interleaving with repeated crashes, without torn writes and over-long lines, a restart rebuilds every entry acknowledged since the last truncation, in order, flushed or not |
| Durability.RunAcks | internal/ingester/wal.go:41-65 | The entries acknowledged in the log are those whose append succeeded in the run since the last truncation, in order |
| Durability.AckSurvives | internal/ingester/wal.go:41-51 | An append that reports success is replayed if and only if the file ended in a finished line, when the decoder rejects a glued line |
| Durability.StopCanLose | internal/ingester/buffer.go:269-275 | There is a run in which Stop truncates the log after the only flush failed, and the accepted entry is nowhere |
| IndexTruth.BucketTruth | internal/ingester/s3_flusher.go:29-63 | In every reachable state the bucket holds exactly the stored chunks and the index files that landed; each index file names a stored chunk, and its key, bounds, count, size, service and label sets are those of the chunk's entries, whatever writes failed or were retried |
| IndexTruth.StepKeepsStore | internal/ingester/buffer.go:217-242 | Every step keeps the bucket truthful, a chunk whose write reports an error included |
| IndexTruth.FilesApart | internal/ingester/buffer.go:227-236 | Two flushes never write the same chunk object or index file, and never one's chunk over the other's index |
| Flushed.StepKeepsFlushed | internal/ingester/buffer.go:217-251 | Every step keeps one stored chunk per flushed batch, with ids that no other batch and no flush under way shares |
| Flushed.FlushedAreStored | internal/ingester/buffer.go:238-248 | In every reachable state each batch reported flushed is a chunk in the bucket with exactly its entries, under an id of its own |
| Flushed.FlushedInScan | internal/ingester/s3_flusher.go:33-62 | In every reachable state a scan of the stored chunks has every entry of every flushed batch, as often |
| Flushed.StoppedIsStored | internal/ingester/buffer.go:254-276 | When Stop has returned, no batch failed and no overflow goroutine is left, every entry recovered or accepted is in the scan of the stored chunks |
| Flushed.AcceptedAreFound | internal/query/query.go:57-155 | After such a Stop, when the index writes landed and the chunks that hold a match are visible, the unlimited query finds every matching entry recovered or accepted, as often |
| Flushed.AcceptedAreReturned | internal/query/query.go:57-155 | The same under checkable hypotheses for the answer within the limit, when the limit is at least the number of matching indexed entries |
| Flushed.AcceptedAreExported | internal/exporter/exporter.go:38-115 | After such a Stop a completed export that reaches the chunks sends every matching entry recovered or accepted, index or not |
| Buffer.LogBuffer.constructor | internal/ingester/buffer.go:62-85 | A new buffer is the state a restart step gives: replay when the log can be read, an empty batch when a seek or the scan fails |
| Buffer.LogBuffer.AddToBuffer | internal/ingester/buffer.go:175-188 | The updated fields are the batch with the entry added |
| Buffer.LogBuffer.DispatchFlush | internal/ingester/buffer.go:193-214 | The batch moves to the queue, or to a new overflow goroutine when four batches wait, and the buffer is empty |
| Buffer.LogBuffer.Add | internal/ingester/buffer.go:133-173 | Add makes exactly the Add step, reports acceptance exactly for entries at or above the minimum level, and publishes exactly the accepted ones, as one step of the broker |
| Buffer.LogBuffer.OnTick | internal/ingester/buffer.go:91-96 | The ticker's turn makes exactly the Tick step |
| Buffer.LogBuffer.Receive | internal/ingester/buffer.go:104-109 | flushLoop takes the oldest queued batch |
| Buffer.LogBuffer.BeginStop | internal/ingester/buffer.go:254-266 | Stop dispatches what is left and closes the queue |
| Buffer.LogBuffer.FinishStop | internal/ingester/buffer.go:267-276 | Stop truncates the log without asking how the flushes went |
| Buffer.EncodeEntries | internal/ingester/buffer.go:279-287 | The batch is encoded line by line, or not at all when one entry does not encode |
| Buffer.ExecuteFlush | internal/ingester/buffer.go:217-251 | Flushed if and only if the batch encodes and the upload succeeds; the bucket gains exactly the chunk and index of the batch that these conditions allow; the whole is a run of the transition system that ends its task |
| Buffer.Flush | internal/ingester/s3_flusher.go:29-63 | Success exactly when the upload succeeds; the index file is written if and only if the upload succeeded, the index encodes and its write lands; the whole is a run of the transition system |
| Buffer.Upload | internal/ingester/s3_flusher.go:33-42 | Success if and only if one of the first three tries is answered with success and every one before it was made and refused; the object is in the bucket if a try that was made landed, and the bucket is unchanged otherwise; the tries are Put steps, or a GiveUp when the context is done |
| Wal.Log.Append | internal/ingester/wal.go:41-51 | One line is appended, or part of it, or none, with the acknowledgement that goes with each |
| Wal.Log.Reset | internal/ingester/wal.go:54-65 | The file is emptied and the encoder replaced, step by failing step |
| Wal.Log.Recover | internal/ingester/wal.go:68-99 | The line-by-line scan returns the decodable lines of the file, or nothing if one is over-long or a seek fails before or after; the count changes only on success |
| Wal.AppendExact | internal/ingester/wal.go:41-51 | An append is acknowledged if and only if the encoder still works, the entry encodes and neither write nor sync fails; exactly what each fault leaves in the file |
| Wal.BrokenUntilReset | internal/ingester/wal.go:42-44 | Behind a failed write every append fails and writes nothing, over any run of calls without a successful reset |
| Wal.FailedWriteThenReset | internal/ingester/wal.go:54-65 | A failed write, any such calls, then a reset: the log is empty and takes entries again |
| Wal.AppendHolds | internal/ingester/wal.go:41-51 | The finished lines of the file are the records written since the last truncation, whatever fault each append met |
| Wal.ReplayExact | internal/ingester/wal.go:68-99 | Replay of any such file, with the effect of every torn line |
| Wal.ReplayUntorn | internal/ingester/wal.go:68-99 | Without torn and over-long lines replay returns exactly the written entries, the acknowledged ones among them in order |
| Wal.TornOutcomes | internal/ingester/wal.go:75-82 | With torn writes the entries lost are exactly those written straight behind an unfinished line |
| Wal.RecoverAfterDamage | internal/ingester/wal.go:68-99 | Whatever bytes the file held, after further appends everything readable before and every appended entry but the first comes back in order; the first comes back as the glued line decodes |
| Lines.Scan | internal/ingester/wal.go:73-85 | The scanner loop returns the decoded lines of the file in order, or an error if and only if some line reaches 1 MiB |
| Lines.ScanEncoded | internal/ingester/buffer.go:279-287 | Encoding any entries and scanning them gives them back if and only if every line is below 1048576 bytes |
| Lines.CarriageReturn | internal/ingester/wal.go:73-77 | One carriage return at the end of a line is dropped, and nothing else |
| LabelSets.SerialInjective | internal/ingester/buffer.go:315-322 | Across all iteration orders, two label maps share a dedup text only if they are equal, when keys lack '=' and values lack ',' |
| LabelSets.CollectLabelSets | internal/ingester/buffer.go:307-336 | The two loops collect, for some iteration orders, the first map of every dedup text |
| LabelSets.SetsGenuine | internal/ingester/buffer.go:307-336 | Every collected set is the non-empty label map of some entry |
| LabelSets.SetsComplete | internal/ingester/buffer.go:307-336 | Every non-empty label map is collected, when labels are clean |
| LabelSets.MatchLabels | internal/index/index.go:98-118 | The nested loops decide whether some set has every queried value, a missing key counting as empty |
| LabelSets.MatchExact | internal/index/index.go:98-118 | The index matches a chunk if and only if the query is empty or some labelled entry has the queried labels |
| LabelSets.LabelPruningSound | internal/index/index.go:98-118 | Pruning by labels never drops a chunk with a hit if and only if the query is empty or asks for some non-empty value |
| LabelSets.NothingCollected | internal/ingester/buffer.go:311-313 | Unlabelled entries leave no set |
| LabelSets.CollisionLosesSet | internal/ingester/buffer.go:315-323 | Two maps whose texts collide leave one set, and a query for the lost one is pruned although it has a hit |
| Calendar.DateOfSuccessor | internal/ingester/buffer.go:342 | The date of the next day is the calendar successor of the date, for every day |
| Calendar.Epoch | internal/ingester/buffer.go:342 | Day 0 is 1 January 1970 |
| Calendar.DayPartsInjective | internal/index/index.go:149 | The formatted day determines the day |
| Keys.DayPrefixes | internal/index/index.go:143-152 | The loop lists the prefix of every day of the range once, in order, and none when the range is empty |
| Keys.DayPrefixUnique | internal/index/index.go:143-152 | No key lies under two days' prefixes |
| Keys.ChunkKeyReads | internal/ingester/buffer.go:339-347 | A chunk key is service/YYYY/MM/DD/seconds-id.ext with the year, month and day, in that order, of the UTC date the time lies in, and its whole seconds |
| Keys.DayPrefixReads | internal/index/index.go:147-150 | A day prefix ends in the year, month and day of its day, in that order |
| Keys.SampleKey | internal/ingester/buffer.go:338-347 | The key of 23 March 2026, written out |
| Keys.SamplePrefix | internal/index/index.go:149 | The day prefix of 23 March 2026, written out |
| Keys.ComponentsVanish | internal/index/index.go:136 | Path cleaning: empty components, dots, and a name with the ".." behind it vanish, wherever they are |
| Keys.ComponentsStay | internal/index/index.go:136 | Path cleaning: names stay; ".." in front vanishes at the root and stays elsewhere |
| KeyRouting.IndexKeyForm | internal/index/index.go:126-140 | The index key of any chunk key with every path function resolved |
| KeyRouting.IndexKeyReads | internal/index/index.go:124-140 | The index key of a slash-free service is YYYY/MM/DD/service-seconds-id.json behind the prefix, with the date and seconds of the chunk's time |
| KeyRouting.SampleIndexKey | internal/index/index.go:124-140 | The index key of 23 March 2026, written out |
| KeyRouting.Routing | internal/index/index.go:126-152 | For every service, time and day, the index file lies under the day's prefix if and only if the service name routes it there: without '/' its own day; with one, what the cleaned rest of the name spells |
| KeyRouting.RoutingSlashFree | internal/index/index.go:126-152 | The index file of a slash-free service lies under the prefix of its chunk's day and of no other |
| KeyRouting.IndexKeysDistinct | internal/index/index.go:126-140 | Distinct ids give distinct index keys, whatever the services and times |
| KeyRouting.ChunkKeysDistinct | internal/ingester/buffer.go:339-347 | Distinct ids give distinct chunk keys |
| KeyRouting.ChunkIsNotIndex | internal/ingester/buffer.go:339-347 | A chunk key is never an index key, whatever the two prefixes |
| Query.QueryIndex | internal/index/index.go:55-95 | The listing loops return the matching index entries of every listed file in order, and fail exactly when a listing fails |
| Query.FetchAndFilter | internal/query/query.go:114-155 | In chunk order, an entry is returned as often as the chunk holds it if its time is in the range and its service, its level and each queried label have the values asked for, and not at all otherwise; with the scanned count, or an error when the chunk cannot be read in full |
| Query.Run | internal/query/query.go:57-111 | With early exit, the first `limit` entries (200 without one) of the unlimited scan of the index hits in index order, each with the time, service, level and labels asked for; fetched and scanned count exactly the readable chunks up to where the scan stops; an answer comes if and only if every listing works and the query is not cancelled while chunks are left and entries are missing |
| Query.FoundExactly | internal/query/query.go:137-151 | The filter condition by condition, as a count of each entry |
| Query.OverlapExact | internal/index/index.go:120-122 | The index keeps a chunk by time if and only if some instant lies in both ranges |
| Query.UnderInOrder | internal/index/index.go:60-66 | A listing keeps the bucket's order |
| Domain.EqualFoldExact | internal/query/query.go:140-145 | Names are compared letter by letter up to case |
| Query.EarlyExit | internal/query/query.go:79-101 | Stopping once there are enough entries does not change the first n |
| EndToEnd.VisitedIffRouted | internal/index/index.go:55-66 | A query visits an index file if and only if it is routed to a day of the range |
| EndToEnd.VisitedOnce | internal/index/index.go:56-66 | No index file is visited twice |
| EndToEnd.ResultIsFinds | internal/query/query.go:57-111 | The unlimited result is, chunk by chunk, the matching entries of the visible indexed chunks |
| EndToEnd.IndexedQueryIsScan | internal/query/query.go:57-155 | After any run of the ingester, the unlimited indexed query equals the plain scan of every indexed chunk, as multisets, if and only if every indexed chunk that holds a match is visible |
| Visibility.VisibleExact | internal/index/index.go:79-87 | A slash-free chunk with a match is visible if and only if it was filed no earlier than the query's first day, its first entry's service is asked for, its label sets match and its lines fit |
| Visibility.IndexedQueryExact | internal/query/query.go:57-155 | With single-day, slash-free, service-homogeneous chunks, clean labels, lines that fit and a safe selector, the query returns, for every limit, only matching indexed entries, as many as there are or as the limit allows, and all of them when the limit is at least their number |
| Visibility.AnswerExact | internal/query/query.go:57-155 | Under the same hypotheses and with room for all matches, each entry is returned as often as the indexed chunks hold it when its time, service, level and labels are those asked for, and not at all otherwise |
| Visibility.MidnightMissed | internal/ingester/buffer.go:228 | A chunk that began before the query's first day is never visited although it holds a match |
| Visibility.MixedServiceMissed | internal/index/index.go:82-84 | Every chunk filed under its first entry's service is pruned from a query for a service of a later entry |
| Visibility.SlashHides | internal/index/index.go:127-139 | A query visits a chunk whose service has one slash if and only if what follows the slash is a dot and the chunk's day is in the range |
| Witnesses.MidnightLost | internal/index/index.go:143-152 | A run that stores and indexes two entries around midnight in one chunk, which a query for the second day does not find |
| Witnesses.MixedServiceLost | internal/ingester/buffer.go:176-180 | A run that stores and indexes two services in one chunk, which a query for the second service does not find |
| Witnesses.SlashLost | internal/index/index.go:127-139 | A run whose indexed chunk of a service such as "a/b" a query for that very service does not find |
| Witnesses.EmptyValueLost | internal/ingester/buffer.go:311-313 | A run whose unlabelled entries match a query for the empty value of a label, which does not find them |
| Witnesses.CollisionLost | internal/ingester/buffer.go:315-323 | A run in which two label maps share a dedup text, and a query for the second does not find its entry |
| Witnesses.UnindexedLost | internal/ingester/s3_flusher.go:56-59 | A run whose only batch is flushed and stored, yet every query comes back empty |
| Exporter.NewExporter | internal/exporter/exporter.go:30-35 | The batch size is the given one exactly when that is positive, else 1000, so the inner loop ends |
| Exporter.ListAll | internal/exporter/exporter.go:41-54 | The keys under every day's prefix in order, or a failure exactly when a listing fails |
| Exporter.BulkIndexWithRetry | internal/exporter/exporter.go:117-133 | The count of the first answered attempt; a batch that fails, by refusal or cancellation, counts for nothing |
| Exporter.SendFull | internal/exporter/exporter.go:80-89 | Full batches are cut from the front until less than a batch is pending; nothing is lost, repeated or reordered |
| Exporter.ChopShape | internal/exporter/exporter.go:80-101 | Cutting into batches concatenates back to the whole, all but the last are full, the last is not empty |
| Exporter.Run | internal/exporter/exporter.go:38-115 | A job completes exactly when every listing works and it is not cancelled; then the batches sent are the cut of the filtered entries of the readable objects in listing order, every object is counted, errors are the number of unreadable objects plus the number of failed batches, exported logs are the total of one count per batch, a failed one counting nothing, so all selected entries when every batch is acknowledged in full and none when no batch is answered; an interrupted job sent full batches only and withheld less than one; the error text counts the errors of a completed job and is the cause of a failed one |
| Exporter.AllOrNothing | internal/exporter/exporter.go:84-103 | Batches acknowledged in full add up to all entries sent; batches that are not answered add nothing and are all counted as failed |
| ExportScan.Listing | internal/exporter/exporter.go:196-209 | For every pair of service names, time and day, a job's day prefix lists a chunk if and only if the job's path components and the day's lead those the chunk is stored under |
| ExportScan.ListingSlashFree | internal/exporter/exporter.go:202-205 | Between slash-free services: the same name to the letter, and the chunk's first day |
| ExportScan.VisitedIffListed | internal/exporter/exporter.go:41-54 | A job visits a stored chunk if and only if one of its days lists it |
| ExportScan.VisitedOnceByJob | internal/exporter/exporter.go:41-54 | No object is read twice by a job |
| ExportScan.ExportIsScan | internal/exporter/exporter.go:38-115 | After any run of the ingester, the batches of a completed job together are the matching entries of every stored chunk, indexed or not, if and only if every stored chunk that holds a match is reached |
| ExportScan.ReachedExact | internal/exporter/exporter.go:180-209 | Between slash-free services, a chunk with a match is reached if and only if the names are equal to the letter, it began no earlier than the job's first day and its lines fit |
| ExportScan.SingleDayReached | internal/exporter/exporter.go:180-209 | A job misses no match in its own service's single-day chunks |
| ExportScan.NoServiceNoExport | internal/exporter/exporter.go:196-209 | A job without a service exports nothing from slash-free services |
| Pool.PoolSafe | internal/exporter/pool.go:21-62 | In every interleaving at most the given number run, 4 when it is not positive; each accepted job holds one slot or gave it back once; whatever was launched was registered by a step before; the two maps are equal and name the job registered last under each id; the wait group is at zero if and only if no launched job is unfinished; all accepted jobs are over if and only if it is at zero and none is still to be launched |
| Pool.RegistryLatest | internal/exporter/registry.go:26-31 | Under every id the registry holds the job of the last registration with that id in the run, and nothing when there was none |
| Pool.StepKeeps | internal/exporter/pool.go:33-57 | Every step of Submit, a job goroutine or Cancel keeps the pool invariant |
| Pool.NeverStuck | internal/exporter/pool.go:46-47 | A finishing job never blocks on the semaphore or the wait group |
| Pool.RefusedIff | internal/exporter/pool.go:34-39 | Submit is refused, changing nothing, if and only if the limit of jobs hold a slot |
| Pool.CancelExact | internal/exporter/registry.go:42-55 | Cancel reaches the job registered under the id and no other |
| Pool.StopTooEarly | internal/exporter/pool.go:59-62 | There is a run in which Stop can return while an accepted job has yet to start |
| Pool.Pool.constructor | internal/exporter/pool.go:21-30 | A non-positive limit means four |
| Pool.Pool.Submit | internal/exporter/pool.go:33-57 | Acceptance exactly below the limit, as three steps of the pool; a refusal leaves pool and registry unchanged |
| Pool.Pool.JobEnds | internal/exporter/pool.go:46-47 | One slot and one wait are given back |
| Pool.Registry.Add | internal/exporter/registry.go:26-31 | Both maps gain the job under its id |
| Pool.Registry.Get | internal/exporter/registry.go:34-39 | The job found carries the id asked for and has a cancel function; nothing is found exactly for the ids Cancel refuses |
| Pool.Registry.Cancel | internal/exporter/registry.go:42-55 | True exactly for a registered id; that job's context is done, its status failed and its error text set, and no other job changes |
| Parser.ParseLabelSelector | internal/query/parser.go:10-43 | The loop computes the specification parser, error cases included |
| Parser.ParseReadable | internal/query/parser.go:10-43 | Every result has only non-empty trimmed keys without ',' and '=', and comma-free values without outer quotes |
| Parser.ErrorExact | internal/query/parser.go:20-38 | A selector is an error if and only if some part between its commas is not blank and has no '=', or only white space before the first |
| Parser.OnePair | internal/query/parser.go:21-40 | Any white space around key and value and any quotes of either kind around the value are dropped |
| Parser.PrintParse | internal/query/parser.go:10-43 | Printing a label map in any order and parsing it gives the map back if and only if it is such a map |
| Broker.Hub.Subscribe | internal/ingester/broker.go:30-40 | With a new id, exactly the Subscribe step of the broker, and the law of every subscriber is kept |
| Broker.Hub.Unsubscribe | internal/ingester/broker.go:43-49 | Exactly the Unsubscribe step, known id or not: the subscriber keeps its channel, and the law of every subscriber is kept |
| Broker.Hub.Publish | internal/ingester/broker.go:53-65 | The loop, in any map order, is exactly the Publish step: every subscriber whose filter passes and whose channel has room gets the entry, nobody else changes, and the law of every subscriber is kept |
| Broker.StepKeeps | internal/ingester/broker.go:30-65 | Every publish, receive, subscribe and unsubscribe keeps the law of each subscriber |
| Broker.TailFromRun | internal/ingester/broker.go:30-65 | Read off the run: what a subscriber received and has pending is what was published between its Subscribe and its Unsubscribe, passed its filter and found fewer than 256 pending, in order; it is all that passed if and only if no publish found the channel full; and every entry of it passes the filter |
| Broker.TailExact | internal/ingester/broker.go:30-65 | The same law on the trails the steps keep: an in-order part of what was offered, at most 256 pending, and all of it if and only if nothing was dropped |
| Retry.Do | internal/retry/retry.go:27-52 | At most the allowed calls, none after a success; nil if and only if the last call succeeded or none was allowed; the first wait asked for is the base delay or the cap, and each later one twice the one before or the cap |
| Retry.DelaysGrow | internal/retry/retry.go:38-41 | Delays never shrink and never pass the cap |
| Retry.TotalWait | internal/retry/retry.go:37-48 | The total wait of any run is at most one and a half times base times (2^n - 1), and at most one and a half times n times the cap |
| Retry.DoubledIsPower | internal/retry/retry.go:38 | The delay before the cap is the base times a power of two |

## Left out

- HTTP handlers, WebSocket pumps, the web UI, `cmd/`, middleware, metrics, logging and configuration defaults: wiring and one-branch checks that would only add easy members.
- The OpenSearch client and the AWS SDK: a bulk call is a reply with a count or an error, a bucket is a map with failures.
- JSON and compression internals: the codec laws listed above are hypotheses of the theorems. A partly readable gzip stream is an unreadable object.
- Characters beyond one byte: case folding and white space are the ASCII ones; JSON's replacement of invalid UTF-8 is part of what the codec laws exclude.
- Data lost by the disk after a successful fsync or before a failed one; a crash here loses memory, not the bytes the file already had.
- Configuration changes between restarts: codec, algorithm, limits and prefixes are fixed over a run.
- Wall-clock times, ticker periods and the distribution of jitter; waits are bounded by 50% and 150% of the delay, and durations are reals without rounding or overflow.
- The width of Go's int: sizes and counters are unbounded.
- Add after Stop, which would send on a closed channel: the Add step is enabled only while the process runs.
- Writers during a query or an export: both read one snapshot of the bucket, so the end-to-end theorems speak of a bucket that does not change meanwhile.
- Whether an export job's status is final: Cancel may overwrite a completed job and Run a cancelled one, so nothing is claimed about it beyond each call.
- Absence of duplicates among collected label sets, which the iteration order of maps does not give.
- Listing all jobs (`internal/exporter/registry.go:57-66`) and the duration of a query: nothing to prove.
- Query.Run: does not model `DurationMs`, because it is a clock.
- Exporter.Run: does not model `CompletedAt`, because it is a clock; the text of a listing or context error is a parameter.
- Parser.ParseLabelSelector: trims ASCII white space only, because a character here is a byte and Go also trims Unicode spaces.
- Keys.ChunkKeyReads: is stated for dates from year 0 on, because earlier years carry a sign; injectivity and routing hold for all.
- LabelSets.SerialInjective: is stated one way only, because two colliding maps outside the condition need particular texts (`LabelSets.CollisionLosesSet` gives one) and many unclean maps collide with nothing.
- Visibility.IndexedQueryExact: is stated one way only, because the exact condition is `EndToEnd.IndexedQueryIsScan`.
- Buffer.Upload: writes out the retry loop of `Retry.Do` over attempts that may land although they fail, because a Dafny function value cannot carry the bucket's change.
