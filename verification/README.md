# Verified models of ObserveX

ObserveX is a telemetry platform written in Go. This project models the libraries of it that hold real
algorithms and protocols, and proves what they are for. Each area has functions that say what the code
computes, classes and methods in the form of the code (fields updated in place, loops) proved equal to
those functions, and lemmas over all inputs, all runs or all interleavings.

| area | modules |
|---|---|
| write-ahead log: byte layout, segments, recovery, replay | `WalFormat`, `WalLog`, `Wal` |
| adaptive sampler: the indexed priority queue and its evictions | `Sampler` |
| PromQL: lexer, parser, printer, lowering to SQL and what the SQL returns | `PromqlAst`, `PromqlLexer`, `PromqlParser`, `PromqlPrinter`, `PromqlText`, `PromqlTranslate`, `PromqlWhere`, `PromqlRows` (with `SqlText`) |
| ObserveQL: planning a WHERE clause with positional parameters | `ObserveqlAst`, `SqlWhere`, `ObserveqlPlanner`, `ObserveqlPlan` |
| LogQL: scanner, printer, SQL | `Logql`, `LogqlPrinter`, `LogqlSql` (with `SqlText`) |
| audit export: buffer, worker and batching exporter | `AuditExport` |
| tenant supervisor: restarts, quarantine, pending timers | `Supervisor`, `SupervisorRuns` |
| complex-event rules: ring-buffer windows and edge-triggered events | `CepWindow`, `CepRules` |
| exponentially weighted moments and the anomaly detectors | `Ewma`, `ZScore` |
| API-key validation cache in front of a database | `AuthCache`, `AuthProtocol` |
| SLO burn rates over trimmed buckets | `Sloburn` |
| LEB128 and WebAssembly section framing | `Leb128` |
| live tail of logs | `LiveTail` |

`Optional` holds the one option type all of them use, `Numbers` a conversion. Library routines are
function parameters about which nothing is assumed unless said: CRC-32, float parsing and formatting,
lower-casing, regular expressions, Argon2id, scope parsing; BLAKE3 is taken to be injective. Clocks,
random jitter, the outcome of an upload and the answer of a database are parameters or events. Goroutines
are program counters, and every critical section is one step.

## Where the code and its own words differ

- The write-ahead log accepts an empty payload (`pkg/wal/wal.go:175-206`), but both scanners take length
  zero for the end of the data (lines 388 and 413). So replay returns exactly the accepted writes if and
  only if none of them was empty (`WalLog.WalReplaysEveryWrite`). A reopening goes on behind the entries
  that replay, so an empty entry at the end of the active segment is overwritten, and what each segment
  replays in any run whatever is said by `WalLog.PromisesAreReplayed`.
- The comment on the key store says that `RevokeKey` evicts the cached validation
  (`pkg/auth/store_postgres.go:87`, `276`); the code does not (lines 293-296). The model follows the code:
  `AuthProtocol.RevocationTakesEffect` gives the window and `AuthProtocol.RevocationBoundIsTight` shows it
  is reached.
- A released tenant can have two live actors once an old restart timer fires
  (`pkg/supervisor/supervisor.go:295-321`, `384-393`). `SupervisorRuns.SafeRunsKeepOneActor` and
  `SupervisorRuns.UnsafeReleaseBreaksIt` give the condition on a release, both ways.
- Burn rates come from buckets that each observation trims (`pkg/sloburn/sloburn.go:142-160`), and
  re-registering a name with a longer window does not bring trimmed observations back (lines 129-133): the
  rate can then be 0 where the full log gives 1 (`Sloburn.LongerWindowLosesHistory`). `Sloburn.SumsAreCounts`
  says for every history and window exactly when the sums are the counts of the full log.
- PromQL's `Translate` does not check that all tokens were read (`pkg/promql/promql.go:103`), so the parser
  theorem has a remainder, and says which first tokens leave it alone: all but those of
  `PromqlPrinter.Continues`, and none of those (`PromqlPrinter.ParsePrinted`).
- `sum(rate(x[5m]))` is lowered as `sum(x)`: a call inside an aggregation contributes its selector only
  (`pkg/promql/translate.go:271-287`), stated by `PromqlRows.NestedCallIsDropped`.
- A LogQL selector value that holds a closing brace cuts the selector short
  (`pkg/logql/logql.go:220`); `LogqlPrinter.ScanPrinted` says the scan works exactly without one.
- The live tail's comment promises no duplicates (`services/query-engine/cmd/logs_sse.go:132-134`), which
  holds; but a full batch that ends among rows of one timestamp, or a row that becomes visible behind the
  cursor, loses rows for good. `LiveTail.CompleteIffAllClean` says exactly when nothing is lost.
- The sampler's tracker says that restoring replaces its state (`pkg/sampling/ewma.go:89`); it keeps the keys
  that the snapshot does not have (`ZScore.EwmaTracker.Restore`).
- An export entry writes its name's length as one raw byte (`pkg/plugin/testdata/builder.go:113-116`),
  which is a length of the format exactly below 128 (`Leb128.ExportNameIffShort`).

## Model

| member | source | states |
|---|---|---|
| WalFormat.GetPutLE | pkg/wal/wal.go:197-200 | a word stored little-endian reads back, for every value that fits its width |
| WalFormat.PutGetLE | pkg/wal/wal.go:383-391 | every byte string of a width is the encoding of exactly one word below 256^width |
| WalFormat.ReadFrame | pkg/wal/wal.go:193-201 | a written non-empty entry is read back whatever bytes follow it |
| WalFormat.EmptyEntryEndsScan | pkg/wal/wal.go:388 | an entry with an empty payload is where both scanners stop |
| WalFormat.FrameOfRead | pkg/wal/wal.go:382-396 | whatever a scan accepts in arbitrary bytes is exactly the encoding of the entry it returns |
| WalFormat.ReplayFrames | pkg/wal/wal.go:401-431 | written entries followed by any bytes replay as themselves and then whatever those bytes replay to |
| WalFormat.ScanBoundary | pkg/wal/wal.go:380-431 | on arbitrary bytes the two scanners agree: the bytes before the offset are the frames of the replayed entries, and nothing readable starts there |
| WalFormat.ReplayIsLongest | pkg/wal/wal.go:380-399 | no longer run of valid entries starts the bytes |
| WalFormat.DamageKeepsEarlierEntries | pkg/wal/wal.go:380-431 | changing any bytes at or after offset k keeps every entry that ends by k |
| WalFormat.ResumeAppends | pkg/wal/wal.go:156-163 | entries written from the scan boundary on are replayed after the old ones, and exactly those when the tail was zero |
| WalFormat.ReplaySegment | pkg/wal/wal.go:401-431 | a zero-padded segment replays to the run before its first empty entry |
| WalLog.AppendRepresents | pkg/wal/wal.go:175-206 | one write, with or without rotation, adds one entry to the journal and leaves older segments alone |
| WalLog.OpenRepresents | pkg/wal/wal.go:146-163 | whatever the files hold, opening resumes the highest segment right behind its replayed entries and touches no other |
| WalLog.DamageStaysInItsSegment | pkg/wal/wal.go:243-257 | changing any bytes of one segment file changes the replay of that segment alone, and keeps its entries that end before the change |
| WalLog.ReopenIsIdentityIff | pkg/wal/wal.go:133-171 | closing and opening again with the same segment size restores the same state exactly when the active segment holds no empty entry |
| WalLog.RunRepresents | pkg/wal/wal.go:133-206 | a run whose reopens meet no empty entry in the active segment keeps the bytes equal to the journal of accepted entries |
| WalLog.ReplayAfterRun | pkg/wal/wal.go:175-257 | after such a run from an empty directory each segment replays its entries up to the first empty one |
| WalLog.WalReplaysEveryWrite | pkg/wal/wal.go:133-257 | the law of the log, for payloads below 2^32: through any rotations, closes and reopens, replay returns exactly the accepted entries, in order, if and only if none of them is empty |
| WalLog.LiveRunBegins | pkg/wal/wal.go:133-206 | over any run at all, reopens that meet empty or damaged entries included, each segment goes on beginning with the frames of its list, and segments below the first are untouched |
| WalLog.PromisesAreReplayed | pkg/wal/wal.go:133-257 | after any run from any such state each segment replays its list up to the first empty entry, possibly with stale entries behind, and everything it promised before the run |
| WalLog.OpenBegins | pkg/wal/wal.go:146-163 | opening any directory, damaged or not, gives such a state, with what the scan keeps as its list |
| WalLog.ResumedSessionReplays | pkg/wal/wal.go:156-206 | a session over damaged files: old valid entries followed by new writes are a prefix of each segment replay, with equality when the tail was zero; other segments are unchanged |
| Wal.ScanValidOffset | pkg/wal/wal.go:380-399 | the recovery loop returns the end of the longest valid prefix |
| Wal.EntryAt | pkg/wal/wal.go:383-395 | the header checks of both scanners accept an entry exactly when its frame stands there |
| Wal.WalkSegment | pkg/wal/wal.go:401-431 | the replay loop delivers the segment entries in order until the callback fails |
| Wal.DiscoverSegments | pkg/wal/wal.go:266-284 | the segment ids are found, each once, in ascending order |
| Wal.DeliverAll | pkg/wal/wal.go:401-431 | a callback that never fails gets every entry of a segment |
| Wal.VisitAll | pkg/wal/wal.go:243-257 | a callback that never fails gets every entry of every segment, in order |
| Wal.VisitStops | pkg/wal/wal.go:243-257 | an error of the callback ends the walk; later segments change nothing |
| Wal.WAL.constructor | pkg/wal/wal.go:133-171 | opening a directory gives the state that recovery defines, with the default segment size when none is given |
| Wal.WAL.OpenFile | pkg/wal/wal.go:307-327 | opening a segment file keeps its bytes and resizes it to the segment size |
| Wal.WAL.Write | pkg/wal/wal.go:175-206 | the three outcomes of a write, and the new bytes in each |
| Wal.WAL.Close | pkg/wal/wal.go:218-238 | closing is idempotent and changes no stored byte |
| Wal.WAL.Walk | pkg/wal/wal.go:243-257 | walking delivers every readable entry of every segment, oldest first |
| Sampler.SwapUp | pkg/sampling/sampler.go:44-48 | one sift-up swap moves the only possible heap violation to the parent |
| Sampler.SwapDown | pkg/sampling/sampler.go:44-48 | one sift-down swap moves the only possible heap violation to the child |
| Sampler.RootIsLeast | pkg/sampling/sampler.go:178-183 | the root of a heap under (score, timestamp) is below no entry |
| Sampler.Rescored | pkg/sampling/sampler.go:250-253 | changing one score in place leaves at most one violation for Fix to repair |
| Sampler.PriorityQueue.Swap | pkg/sampling/sampler.go:44-48 | two entries trade places and every back-pointer stays right |
| Sampler.PriorityQueue.Push | pkg/sampling/sampler.go:50-55 | an entry is appended with its back-pointer |
| Sampler.PriorityQueue.Pop | pkg/sampling/sampler.go:57-65 | the last entry is removed and its back-pointer cleared |
| Sampler.PriorityQueue.Fix | pkg/sampling/sampler.go:253 | after an in-place rescoring the queue is a heap of the same entries again |
| Sampler.PriorityQueue.HeapPush | pkg/sampling/sampler.go:260 | pushing keeps the heap and the back-pointers and adds exactly the new entry |
| Sampler.PriorityQueue.HeapPop | pkg/sampling/sampler.go:267 | popping removes an entry that no other is below, and keeps the heap |
| Sampler.SurvivorsAreUnique | pkg/sampling/sampler.go:266-269 | with distinct ranks the survivors of an eviction are determined |
| Sampler.EvictionComposes | pkg/sampling/sampler.go:246-269 | evicting after each arrival gives the same survivors as evicting once from everything |
| Sampler.StreamKeepsTheGreatest | pkg/sampling/sampler.go:232-269 | after any stream of distinct traces the survivors are the greatest maxSize of all that arrived |
| Sampler.AdaptiveSampler.Admit | pkg/sampling/sampler.go:246-289 | one decision: the index and queue stay linked, the survivors are the greatest of the old entries with the new or rescored one, and the verdict follows from score, recency and length |
| Sampler.AdaptiveSampler.Decide | pkg/sampling/sampler.go:232-289 | signals that are not traces or have no id are kept and change nothing; every other one is admitted |
| Sampler.AdaptiveSampler.EvictExcess | pkg/sampling/sampler.go:266-269 | the eviction loop leaves the greatest maxSize entries |
| PromqlParser.Parser.ParseBinCmp | pkg/promql/parser.go:112-133 | the comparison level of the parser reads what the grammar reads, and never backs up |
| PromqlParser.Parser.ParseBinAdd | pkg/promql/parser.go:135-152 | the additive loop builds the left-associative tree of the grammar |
| PromqlParser.Parser.ParseBinMul | pkg/promql/parser.go:154-171 | the multiplicative loop builds the left-associative tree of the grammar |
| PromqlParser.Parser.ParsePrim | pkg/promql/parser.go:173-202 | primaries are read as the grammar says, and success always consumes a token |
| PromqlParser.Parser.ParseCall | pkg/promql/parser.go:215-292 | calls and aggregations, with the labels after the arguments and the quantile parameter, are read as the grammar says |
| PromqlParser.Parser.ParseSelector | pkg/promql/parser.go:302-366 | selectors, matchers and ranges are read as the grammar says |
| PromqlPrinter.PrimaryRoundTrip | pkg/promql/parser.go:173-202 | parsing a printed primary gives it back and stops behind it |
| PromqlPrinter.MulRoundTrip | pkg/promql/parser.go:154-171 | at the multiplicative level a printed tree is the left operand of whatever follows |
| PromqlPrinter.AddRoundTrip | pkg/promql/parser.go:135-152 | at the additive level a printed tree is the left operand of whatever follows |
| PromqlPrinter.ExprRoundTrip | pkg/promql/parser.go:112-133 | comparisons do not chain: a printed comparison is complete, anything else may still be compared |
| PromqlPrinter.CallRoundTrip | pkg/promql/parser.go:215-292 | a printed call parses back with all its arguments |
| PromqlPrinter.AggrRoundTrip | pkg/promql/parser.go:215-292 | a printed aggregation parses back with its labels and parameter |
| PromqlPrinter.ParsePrinted | pkg/promql/parser.go:107-366 | for every well-formed tree and remainder, parsing the minimal-parenthesis printout gives the tree and leaves the remainder alone if and only if its first token does not continue the expression |
| PromqlPrinter.WellFormedIsTheImage | pkg/promql/parser.go:107-366 | the well-formed trees are exactly the ones the parser produces from whole token lists |
| PromqlLexer.Tokenize | pkg/promql/lex.go:45-159 | the tokenizer loop returns the tokens of the text, or fails where the definition fails |
| PromqlLexer.FoldDurations | pkg/promql/lex.go:161-173 | a number followed by a unit becomes one duration token, scanning left to right |
| PromqlLexer.ReadString | pkg/promql/lex.go:183-217 | the string loop handles escapes and the missing closing quote as defined |
| PromqlLexer.LexString | pkg/promql/lex.go:183-217 | scanning an escaped string gives back the string and the rest of the text |
| PromqlLexer.LexRendered | pkg/promql/lex.go:45-159 | the tokenizer undoes rendering for every list of lexable tokens |
| PromqlLexer.FoldUnfold | pkg/promql/lex.go:161-173 | folding undoes splitting durations exactly when no number stands before a unit word |
| PromqlLexer.TokenizeRendered | pkg/promql/lex.go:45-173 | tokenizing rendered tokens gives them back exactly when no number stands before a unit word |
| PromqlText.ParseTextPrinted | pkg/promql/promql.go:98-107 | from text to tree: tokenizing and parsing the printed text of a tree gives the tree |
| PromqlTranslate.SelectorWheres | pkg/promql/translate.go:57-68 | the matcher loop gives one clause and one bound value per matcher, in order, or fails on a bad regular expression |
| PromqlTranslate.GroupBy | pkg/promql/translate.go:100-109 | the label loop adds one selected column and one group column per label |
| PromqlTranslate.EmitAggr | pkg/promql/translate.go:52-121 | an aggregation compiles to the query of its selector, operator and labels |
| PromqlTranslate.WheresHoles | pkg/promql/translate.go:57-68 | the WHERE text of a selector has one parameter per bound argument |
| PromqlTranslate.OneHolePerArgument | pkg/promql/translate.go:31-266 | every translated tree has exactly one positional parameter per argument, at any depth |
| PromqlWhere.WheresRead | pkg/promql/translate.go:57-68 | the WHERE text of a selector reads back as its conditions: the metric, each matcher with its label and operator, the time range |
| PromqlWhere.WheresMean | pkg/promql/translate.go:57-69 | that text with its bound arguments lets a point through exactly when the metric, every matcher on its own label and value, and the time range hold |
| PromqlRows.LoweredReads | pkg/promql/translate.go:219-266 | the emitted text reads back as nested selects, whatever follows it |
| PromqlRows.LoweredMeans | pkg/promql/translate.go:219-266 | the nested SQL returns exactly the rows the tree means: the innermost query sees exactly the points its selector asks for, arithmetic goes row by row with operand order kept, comparisons filter, at any depth |
| PromqlRows.LowerIff | pkg/promql/translate.go:31-214 | a tree is translated exactly when it is a chain of scalar operations over one supported core |
| PromqlRows.NestedCallIsDropped | pkg/promql/translate.go:271-287 | a call inside an aggregation contributes its selector only |
| PromqlRows.TextMeans | pkg/promql/promql.go:80-107 | from query text to rows: the printed text of a supported tree is translated to SQL that returns its rows |
| ObserveqlPlanner.ValueDenotes | pkg/observeql/planner.go:322-343 | a rendered value is a column or one bound parameter with the value it stands for |
| ObserveqlPlanner.PredDenotes | pkg/observeql/planner.go:307-320 | a rendered comparison, reparsed, compares the meanings of its two sides |
| ObserveqlPlanner.CmpDenotes | pkg/observeql/planner.go:286-305 | rendering succeeds exactly on allowed columns, and a rendered NOT, group or predicate means what the tree means |
| ObserveqlPlanner.AndDenotes | pkg/observeql/planner.go:271-284 | a rendered conjunction, reparsed under SQL precedence, is the conjunction of its parts |
| ObserveqlPlanner.OrDenotes | pkg/observeql/planner.go:256-269 | a rendered disjunction, reparsed under SQL precedence, is the disjunction of its parts |
| ObserveqlPlan.EmitCmp | pkg/observeql/planner.go:286-305 | the recursive emitter appends to the shared parameter list exactly what rendering defines, and fails when it fails |
| ObserveqlPlan.EmitAnd | pkg/observeql/planner.go:271-284 | the conjunction loop emits left to right into the shared parameter list |
| ObserveqlPlan.EmitOr | pkg/observeql/planner.go:256-269 | the disjunction loop emits left to right into the shared parameter list |
| ObserveqlPlan.CmpHoles | pkg/observeql/planner.go:286-305 | placeholders and parameters of a condition match one to one |
| ObserveqlPlan.WhereHoles | pkg/observeql/planner.go:144-203 | placeholders and parameters of the whole WHERE text match one to one |
| ObserveqlPlan.WhereMeans | pkg/observeql/planner.go:144-203 | the WHERE text with its parameters bound left to right is the conjunction of tenant, user condition and time bound |
| ObserveqlPlan.PlanSucceeds | pkg/observeql/planner.go:118-203 | a plan exists exactly when tenant, source, columns, functions and duration are acceptable |
| ObserveqlPlan.PlanSelectsExactly | pkg/observeql/planner.go:118-215 | the planned query is true on a row exactly when tenant equality, the user expression and the time bound hold; parameters match placeholders and the limit never exceeds the cap |
| ObserveqlPlan.PlanQuery | pkg/observeql/planner.go:118-215 | the planner method builds exactly the specified plan or the specified refusal |
| AuditExport.S3Exporter.Flush | pkg/auditlog/s3.go:194-237 | an uninterrupted flush loses and reorders nothing, and empties the queue unless the upload fails |
| AuditExport.S3Exporter.Append | pkg/auditlog/s3.go:159-171 | a valid record handed over is stored or queued behind the earlier ones |
| AuditExport.BufferedExporter.Append | pkg/auditlog/auditlog.go:178-187 | a record goes to the buffer, or straight to the exporter when the buffer is full |
| AuditExport.BufferedExporter.Drain | pkg/auditlog/auditlog.go:197-219 | the drain loop hands over every buffered record in order, losing only invalid ones |
| AuditExport.BufferedExporter.Close | pkg/auditlog/auditlog.go:189-195 | run alone, a nil result means every valid record is in a stored object |
| AuditExport.StepConserves | pkg/auditlog/s3.go:159-237 | one step of any goroutine moves records between places and loses none; only Append adds one |
| AuditExport.RecordsAreConserved | pkg/auditlog/auditlog.go:178-219 | in every interleaving each record is in exactly one place: buffer, goroutine, queue, object or refusal |
| AuditExport.RunKeepsInv | pkg/auditlog/s3.go:173-237 | in every interleaving only valid records are queued, uploaded or stored, and Close waits for worker and ticker |
| AuditExport.CloseAccountsForEverything | pkg/auditlog/s3.go:173-237 | if Close returns nil every valid record is stored exactly once, and if it fails the rest is still queued |
| Supervisor.BackoffGrows | pkg/supervisor/supervisor.go:334-346 | the backoff never shrinks and never passes the maximum, even when 64-bit doubling overflows |
| Supervisor.TrimBefore | pkg/supervisor/supervisor.go:324-332 | the loop drops exactly the leading times before the cutoff |
| Supervisor.TrimSorted | pkg/supervisor/supervisor.go:324-332 | on sorted times that leaves exactly the times in the window |
| Supervisor.ManagedActor.Sweep | pkg/supervisor/supervisor.go:266-301 | one inspection updates window, quarantine and backoff of an actor and says whether a restart is scheduled |
| Supervisor.ManagedActor.Fire | pkg/supervisor/supervisor.go:305-322 | a firing timer starts the actor unless it is quarantined or running |
| Supervisor.Registry.GetOrCreate | pkg/supervisor/supervisor.go:201-231 | a quarantined tenant gets nothing, a known one its actor, a new one a fresh actor |
| Supervisor.Registry.RouteToTenant | pkg/supervisor/supervisor.go:174-199 | every signal is counted exactly once, and for a quarantined tenant as dropped |
| Supervisor.Registry.SweepAll | pkg/supervisor/supervisor.go:258-303 | the sweep inspects every registered actor once and schedules exactly the due restarts |
| Supervisor.Registry.ReleaseQuarantine | pkg/supervisor/supervisor.go:384-393 | release resets the actor and forgets it |
| SupervisorRuns.InspectOk | pkg/supervisor/supervisor.go:266-301 | an inspection keeps the restart list equal to the sweeps in the window that found the actor down |
| SupervisorRuns.StepKeepsInv | pkg/supervisor/supervisor.go:174-393 | every step keeps, for every actor: quarantined means down, quarantine exactly when the window holds too many restarts, backoff within bounds |
| SupervisorRuns.ReachableInv | pkg/supervisor/supervisor.go:174-393 | that holds in every reachable state of every interleaving |
| SupervisorRuns.BackoffNeverShrinks | pkg/supervisor/supervisor.go:288-289 | only releasing its own tenant can shrink an actor backoff |
| SupervisorRuns.QuarantineHolds | pkg/supervisor/supervisor.go:174-322 | until release or Stop a quarantined tenant stays down through every pending timer and all its routes count as dropped |
| SupervisorRuns.SafeRunsKeepOneActor | pkg/supervisor/supervisor.go:258-393 | while every release is of a down actor without a pending timer, and timers cancelled by Stop do not fire, no tenant has two live actors and a quarantined one has none |
| SupervisorRuns.UnsafeReleaseBreaksIt | pkg/supervisor/supervisor.go:295-321 | after any other release some continuation gives the tenant two live actors |
| CepWindow.AddMovesSum | pkg/cep/cep.go:81-88 | one addition moves the windowed sum by exactly its amount: an overwritten bucket had left the window |
| CepWindow.SumIsTotal | pkg/cep/cep.go:81-100 | the ring sum is the total over everything ever added in the last n epochs |
| CepWindow.SlidingWindow.AddAt | pkg/cep/cep.go:81-88 | the bucket of the epoch is overwritten or increased in place |
| CepWindow.SlidingWindow.Sum | pkg/cep/cep.go:90-100 | the loop adds the live buckets |
| CepWindow.HighestIsTheMaximum | pkg/cep/cep.go:246-256 | the reference maximum bounds zero and all live samples, and is attained |
| CepWindow.TrackMovesMax | pkg/cep/cep.go:236-244 | one observation moves the windowed maximum to the larger of it and the sample |
| CepWindow.MaxIsHighest | pkg/cep/cep.go:236-256 | the tracker peak is the true maximum of the window, floored at zero |
| CepWindow.LatencyTracker.MaxIn | pkg/cep/cep.go:246-256 | the loop takes the largest live bucket |
| CepRules.RingCounts | pkg/cep/cep.go:90-100 | the ring of a service answers for the whole history of that service |
| CepRules.ServicesAreIndependent | pkg/cep/cep.go:134-189 | signals of other services never add, remove or move an error-rate event |
| CepRules.HighErrorRateRule.Evaluate | pkg/cep/cep.go:134-189 | an event exactly on a rising edge of the true windowed error rate, carrying the true rates and their ratio |
| CepRules.HighErrorRateRule.Edge | pkg/cep/cep.go:168-188 | the firing flag fires once per breach and is reset when the rate drops |
| CepRules.PeakOfRing | pkg/cep/cep.go:246-256 | the ring of a service answers for the whole latency history of that service |
| CepRules.LatencyIsIndependent | pkg/cep/cep.go:268-313 | latencies of other services never add, remove or move an event |
| CepRules.HighLatencyRule.Evaluate | pkg/cep/cep.go:268-313 | an event exactly on a rising edge of the true windowed peak |
| Ewma.ExpectMore | pkg/sampling/ewma.go:49-51 | one more sample scales every old weight by 1 - a and gets weight a |
| Ewma.WeightsSumToOne | pkg/sampling/ewma.go:38-52 | the weights of any number of samples sum to one |
| Ewma.SpreadAbout | pkg/sampling/ewma.go:49-51 | the weighted squares about any centre are the variance plus the squared distance to the mean |
| Ewma.FoldIsClosedForm | pkg/sampling/ewma.go:38-52 | the incremental mean and variance are the weighted mean and weighted variance of all samples |
| Ewma.FoldBounds | pkg/sampling/ewma.go:38-52 | the mean stays between least and greatest sample and the variance is never negative |
| Ewma.NewestIsClose | pkg/mlruntime/zscore.go:72-74 | after every update a*(x-mean)^2 <= (1-a)*variance |
| Ewma.SpikeIsExtreme | pkg/mlruntime/zscore.go:72-74 | after silence a spike meets that bound with equality |
| ZScore.PredictorAndDetectorAgree | services/ml-anomaly-detector/internal/detector/detector.go:71-109 | on every run the predictor and the detector keep the same state and report the same anomalies with the same numbers |
| ZScore.RunIsFold | pkg/mlruntime/zscore.go:59-79 | the state of a series is the fold of its own samples, whatever came in between |
| ZScore.RunIsClosedForm | pkg/mlruntime/zscore.go:59-79 | after every run the state of a series is the weighted mean and variance of its own samples |
| ZScore.AnomalyIffRoom | pkg/mlruntime/zscore.go:82-91 | over all histories an anomaly can be reported if and only if threshold^2 * a <= 1 - a |
| ZScore.ThreeSigmaNeverFires | pkg/mlruntime/zscore.go:82-91 | with a above 0.1 a threshold of 3 never fires, in either implementation |
| ZScore.ZScorePredictor.Observe | pkg/mlruntime/zscore.go:59-92 | one sample updates its series in place and gives the specified decision |
| ZScore.Detector.Observe | services/ml-anomaly-detector/internal/detector/detector.go:71-109 | one sample updates its series in place and gives the specified anomaly or none |
| ZScore.EwmaTracker.Observe | pkg/sampling/ewma.go:38-52 | the three maps of the tracker move together by one update of one key; a restored entry without samples is moved, not seeded |
| ZScore.EwmaTracker.ZScore | pkg/sampling/ewma.go:58-71 | the score is zero while there are fewer than 30 samples or no spread, and the deviation otherwise |
| ZScore.EwmaTracker.Snapshot | pkg/sampling/ewma.go:75-87 | a snapshot is the whole state |
| ZScore.EwmaTracker.Restore | pkg/sampling/ewma.go:90-98 | restoring puts every entry of a snapshot back and leaves other keys alone |
| AuthCache.WireKeyIff | pkg/auth/store_postgres.go:302-311 | a wire key is accepted exactly when it is three plain parts joined by colons, and splits into those |
| AuthCache.ValidationCache.Get | pkg/auth/store_postgres.go:432-446 | a live entry is returned, an expired one is deleted |
| AuthCache.ValidationCache.Evict | pkg/auth/store_postgres.go:451-459 | the eviction loop removes a tenth of the size, but at least one entry |
| AuthCache.ValidationCache.Put | pkg/auth/store_postgres.go:448-465 | storing keeps the cache within its size and every entry that was not evicted |
| AuthProtocol.StepIsSound | pkg/auth/store_postgres.go:175-298 | every step keeps every cached, pending and copied entry backed by a row, and justifies what it accepts |
| AuthProtocol.AcceptedKeysWereValid | pkg/auth/store_postgres.go:175-214 | in every interleaving an accepted key had a matching active row with the returned tenant and scopes no longer ago than the time to live plus the read-to-put delay; the cache stays within its size |
| AuthProtocol.RevocationTakesEffect | pkg/auth/store_postgres.go:279-298 | no key is accepted later than that after its revocation or expiry |
| AuthProtocol.RevocationBoundIsTight | pkg/auth/store_postgres.go:279-298 | for every well-formed key some run accepts it at exactly that distance from its revocation |
| AuthProtocol.HitIsAcceptedUnlessExpired | pkg/auth/store_postgres.go:182-188 | the tenant comparison after a cache hit never fails |
| AuthProtocol.KeyStore.ValidateKeyWithMetadata | pkg/auth/store_postgres.go:175-214 | one validation from start to finish answers from a live cache entry or else from the database, and fills the cache |
| AuthProtocol.KeyStore.RevokeKey | pkg/auth/store_postgres.go:279-298 | revoking marks the row once and leaves the cache alone |
| Sloburn.AddToBucket | pkg/sloburn/sloburn.go:255-264 | the loop increases the bucket of the epoch in place or appends one |
| Sloburn.TrimOlder | pkg/sloburn/sloburn.go:266-274 | the loop keeps exactly the buckets after the cutoff |
| Sloburn.AddMovesSum | pkg/sloburn/sloburn.go:255-264 | one addition moves every window sum that contains its epoch by exactly its amount |
| Sloburn.SumsAreCounts | pkg/sloburn/sloburn.go:142-160 | for every history, side and window a bucket sum never exceeds the count of the full log, and equals it if and only if no observation trimmed away an event of the window |
| Sloburn.CoveredIsKept | pkg/sloburn/sloburn.go:142-160 | a retention that always covered the window, with no observation later than the evaluation, loses nothing |
| Sloburn.BurnRateIsTrue | pkg/sloburn/sloburn.go:142-241 | burn rates from trimmed buckets are those of the full log, out-of-order observations included, whenever nothing of the window was lost |
| Sloburn.EvaluateFiresTheBest | pkg/sloburn/sloburn.go:179-211 | the decision fires the highest severity among tripping pairs, the earliest registered first, and fires exactly when one trips |
| Sloburn.EvaluateOnTheTruth | pkg/sloburn/sloburn.go:179-241 | when nothing is lost in any pair window, the decision fires the earliest of the highest severity among the pairs whose true burn rates trip, and fires exactly when one does |
| Sloburn.CoveredKeepsEveryPair | pkg/sloburn/sloburn.go:142-160 | with short windows within long ones, a retention that always covered the longest window loses nothing of any pair, however out of order the observations came |
| Sloburn.TripsOnTheTruth | pkg/sloburn/sloburn.go:193-210 | a pair whose two windows lost nothing trips exactly when its true long and short burn rates reach its threshold |
| Sloburn.MissIsLoudest | pkg/sloburn/sloburn.go:203-210 | when nothing fires the decision records the loudest long-window rate |
| Sloburn.SloState.Observe | pkg/sloburn/sloburn.go:142-160 | one observation adds to its bucket and trims both lists |
| Sloburn.SloState.Rate | pkg/sloburn/sloburn.go:217-241 | the two loops compute the burn rate of the buckets |
| Sloburn.SloState.Decide | pkg/sloburn/sloburn.go:193-210 | the walk over the sorted pairs stops at the first that trips |
| Sloburn.Evaluator.RegisterSlo | pkg/sloburn/sloburn.go:117-136 | only valid definitions are stored, and re-registering keeps the counters |
| Sloburn.Evaluator.Evaluate | pkg/sloburn/sloburn.go:179-211 | an unknown name is refused, a known one decided on its own state |
| Leb128.EncodeULEB128 | pkg/plugin/testdata/builder.go:134-148 | the loop emits the unsigned encoding |
| Leb128.EncodeSLEB128 | pkg/plugin/testdata/builder.go:150-165 | the loop emits the signed encoding |
| Leb128.ReadUnsigned | pkg/plugin/testdata/builder.go:134-148 | reading an unsigned encoding under the uN grammar gives the value and the rest exactly when it fits N bits |
| Leb128.ReadSigned | pkg/plugin/testdata/builder.go:150-165 | reading a signed encoding under the sN grammar gives the value and the rest exactly when it fits N bits |
| Leb128.UnsignedIsShortest | pkg/plugin/testdata/builder.go:134-148 | no byte string that denotes the value is shorter than its encoding |
| Leb128.SignedIsShortest | pkg/plugin/testdata/builder.go:150-165 | no byte string that denotes the value is shorter than its encoding |
| Leb128.UnsignedPrefixFree | pkg/plugin/testdata/builder.go:134-148 | no encoding is a prefix of another |
| Leb128.SignedPrefixFree | pkg/plugin/testdata/builder.go:150-165 | no encoding is a prefix of another |
| Leb128.SixtyFourBits | pkg/plugin/testdata/builder.go:134-165 | every 64-bit value round-trips in at most ten bytes |
| Leb128.WriteSection | pkg/plugin/testdata/builder.go:107-111 | a section is appended as id, size and payload |
| Leb128.WrittenSectionsReadBack | pkg/plugin/testdata/builder.go:107-111 | any list of sections reads back as itself exactly when every payload is shorter than 2^32 bytes |
| Leb128.ExportNameIffShort | pkg/plugin/testdata/builder.go:113-116 | the raw length byte of an export entry is a length of the format exactly below 128 |
| Logql.SplitTopLevelCommas | pkg/logql/logql.go:241-269 | the flag loop splits at the commas outside quotes and brackets |
| Logql.IndexOpOutsideString | pkg/logql/logql.go:287-301 | the loop finds the first operator outside quotes |
| Logql.ParseMatcher | pkg/logql/logql.go:271-285 | operators are tried in order, and the value must be quoted |
| Logql.ParseStreamSelector | pkg/logql/logql.go:215-239 | the selector ends at the first closing brace and its non-empty parts must all be matchers |
| Logql.ParseLineFilters | pkg/logql/logql.go:303-344 | the loop reads filters until the text ends or one is malformed |
| LogqlPrinter.SplitCommas | pkg/logql/logql.go:241-269 | splitting undoes joining, commas and brackets inside quotes included |
| LogqlPrinter.ParsePrintedMatcher | pkg/logql/logql.go:271-301 | parsing one printed matcher gives it back, for every value free of quotes and backslashes |
| LogqlPrinter.ParsePrintedFilters | pkg/logql/logql.go:303-344 | parsing printed line filters gives them back |
| LogqlPrinter.ScanPrinted | pkg/logql/logql.go:215-344 | scanning a printed query gives back matchers and filters exactly when no selector value holds a closing brace |
| LogqlSql.TranslateLogs | pkg/logql/logql.go:94-130 | the clause loops build the specified query and arguments |
| LogqlSql.OneHolePerArgument | pkg/logql/logql.go:94-130 | any translated log query has exactly one positional parameter per argument |
| LogqlSql.TranslatePrinted | pkg/logql/logql.go:67-130 | a printed query compiles to its own values in order, then start, end and limit, with their defaults |
| LogqlSql.ClausesIff | pkg/logql/logql.go:348-367 | a selector compiles exactly when its regular expressions do |
| LiveTail.Handler.constructor | services/query-engine/cmd/logs_sse.go:81-112 | the query has one argument per clause, the cursor second and starting five seconds back, and the cap last |
| LiveTail.Handler.Bind | services/query-engine/cmd/logs_sse.go:124 | the query of each tick selects exactly the tenant lines newer than the cursor that pass the given filters, at most a batch of them |
| LiveTail.Handler.Emit | services/query-engine/cmd/logs_sse.go:131-145 | rows are sent in order until the client goes away, and the cursor ends at the latest timestamp |
| LiveTail.NeverTwice | services/query-engine/cmd/logs_sse.go:115-147 | over every run of inserts and polls no row is sent twice |
| LiveTail.CompleteIffClean | services/query-engine/cmd/logs_sse.go:115-147 | one step opens no gap exactly when a new row is not behind the cursor and a full batch does not end among equal timestamps |
| LiveTail.MissedForever | services/query-engine/cmd/logs_sse.go:131-137 | a row that was passed over is never sent later |
| LiveTail.CompleteIffAllClean | services/query-engine/cmd/logs_sse.go:115-147 | nothing was passed over if and only if every step was clean |
| LiveTail.AnswerIsPrefix | services/query-engine/cmd/logs_sse.go:124-131 | with distinct timestamps a poll returns the oldest rows after the cursor |
| LiveTail.StepKeepsPrefix | services/query-engine/cmd/logs_sse.go:115-147 | each poll sends the next rows of the log: all that are left, or 200 |
| LiveTail.SentIsPrefix | services/query-engine/cmd/logs_sse.go:115-147 | when rows become visible in strictly increasing timestamp order, what was sent is exactly a prefix of the rows newer than the start |

## Left out

- HTTP, gRPC, SSE and gin handlers, TLS, OIDC, proxies and configuration: plumbing over libraries.
- Operating-system errors, fsync timing, mmap and file naming: a directory is a map from segment ids to bytes.
- Write-ahead log payloads of 2^32 bytes and more (their length is truncated to 32 bits) and segment-id overflow: the run theorems ask for shorter payloads.
- Sampler.AdaptiveSampler.Decide: the score of a signal (pkg/sampling/sampler.go:185-230) is a parameter, because the queue does not depend on how it is computed.
- Floating point: scores, rates, means and variances are reals, so NaN, infinities and rounding are not modelled; standard deviations are compared by their squares.
- 64-bit overflow of event counters, of epochs and of time arithmetic outside the supervisor's backoff.
- Strings are sequences of characters; the scanners look at ASCII characters only, and multi-byte encodings are not modelled.
- Token positions, and the texts of all error messages.
- SqlWhere: ObserveQL's SQL is modelled as lexemes, not as characters; identifiers are allow-listed names.
- The ObserveQL grammar: its parser is a library, so the tree is taken as given.
- PromqlRows.LoweredMeans: what the SELECT and GROUP BY texts of an innermost query make of the points that its WHERE lets through is left to the database, as a function of those texts, because ClickHouse's aggregates are not part of this model; the labels field of a result is kept but not related to its columns. A label of other than letters, digits, `_`, `-` and `.` is looked up as `INVALID`, as in the code.
- PromqlRows.TextMeans: as PromqlRows.LoweredMeans.
- LogqlPrinter.ParsePrintedMatcher: values with a quote or a backslash are left out, because the code never unescapes a value, so no printed form gives such a value back as written.
- Wal.DiscoverSegments: a directory is given by segment ids, so two file names that parse to one id do not occur.
- WalLog.RunRepresents: reopens that meet an empty entry are left to WalLog.LiveRunBegins.
- Supervisor.Registry.RouteToTenant: routing to a registered actor that has stopped (its mailbox is a closed channel, pkg/actor/actor.go:147).
- Cep engine: Engine.Process stops at the first event of any rule; rules are modelled one by one. Times before 1970, where the ring index would be negative, are excluded.
- Auth: the database and the processes share one clock; last-used bookkeeping, key generation, and deletion of rows with their tenant. Issuing is a step of the protocol, not a method.
- Sloburn.EvaluateFiresTheBest: the stable sort is the library's, given as the pairs of each rank in registered order.
- LogQL metric queries (pkg/logql/logql.go:134-200): they scan the same selectors and filters and add only a fixed expression.
- LiveTail.Handler.Emit: every row's timestamp is readable and every row can be marshalled; a row that cannot be would be skipped or seen again.
- LiveTail.NeverTwice: under the same assumption.
- File and no-op audit exporters, retention strings, dashboards, notifiers, federation, Parquet and Arrow builders, and the ClickHouse backend's buffering: they would add easy members only.
