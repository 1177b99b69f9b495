# dblift: a verified model of its stateful and algorithmic core

dblift is a database migration tool in Python. This project models the parts of it whose
behaviour is not visible from one function body, and proves what they are for: a lazy plugin
index that must answer like an eager one, hand-written SQL scanners, the lock around a client's
operations and its asyncio facade, an event emitter with re-entrant listeners, configuration
merging, argv splitting, placeholder translation, isolation-level switching, a secrets cache, a
span stack, and version parsing.

`dafny verify dfyconfig.toml` checks everything.

| file | models |
|---|---|
| `Basics.dfy`, `Decimals.dfy` | option and result types; decimal notation of natural numbers |
| `ProviderRegistry.dfy` | `dblift/db/provider_registry.py`: descriptors indexed per alias, loaded on first lookup, falling back along chains; the quirks cache |
| `SqlScanner.dfy` | `dblift/db/dml_analysis.py`: comments, quotes, dollar quotes, parentheses; the clamping and the refusing scanner |
| `OperationLock.dfy` | `dblift/api/client.py`, `dblift/api/events.py`: lock, re-entrancy stack and active emitter, for any number of threads |
| `AsyncClient.dfy` | `dblift/api/async_client.py`: lock, worker, cancellations, for any number of tasks |
| `EventEmitter.dfy` | `dblift/api/events.py`: emitting, batching and flushing under re-entrant listeners |
| `ListenerCalls.dfy` | `dblift/api/events.py`: whom a dispatch, a flush and a listener's program call, and in which order |
| `ArgvSplitter.dfy` | `dblift/cli/_config_helpers.py`: the argv splitter and the rebuilt argv |
| `ConfigMerge.dfy` | `dblift/config/dblift_config.py`: merging, environments, precedence |
| `OtelSpans.dfy` | `dblift/integrations/opentelemetry.py`: the span stack |
| `Isolation.dfy` | `dblift/db/sqlalchemy_provider.py`: transactions, the autocommit switch, caller-owned commits |
| `SecretsCache.dfy` | `dblift/config/secrets`: composite keys, expiry, resolving a tree |
| `Version.dfy` | `dblift/db/version.py`: printing, parsing, matching |
| `DriverBind.dfy` | `dblift/db/sqlalchemy_provider.py`: placeholder translation |

Code that updates state in place is a class or a method with the loops of the original, proved
against functions; the lock, the asyncio client and the span runs are also step relations, so
that the results hold for every interleaving. What the functions mean is stated a second time
without them: over the registrations, the words of a text, the calls in progress, the events of a
run, the tokens before a token. What lies outside is a parameter: factories with a
fixed outcome, Python's character classes, the clock, secret providers, statement outcomes,
worker results, and the listeners' programs.

Where the code does not do what is promised, the model follows the code and says exactly when
the promise holds:

* The documentation of `apply_environment` says that the selector keys are always stripped. A
  selected block that itself holds one brings it back (`SelectorComesBack`); `SelectorsAreStripped`
  gives the exact condition.
* Merging is not associative: a mapping hidden by a non-empty other value is lost, unless the
  mapping that follows absorbs it. `MergeAssociative` is an if and only if; `HiddenMapping` is an
  instance.
* A caller cancelled while its worker runs gets the cancellation, except when the worker ends
  with an exception outside `Exception` and no cancellation was pending once it was done:
  `EndingOfSubmitted`, with a run in `FatalOverridesCancellation`.
* A rebuilt argv splits back exactly when the last global flag has its value and the command is a
  stop command or no command word stands loose among the arguments: `RebuiltSplitsBack`, with
  instances in `StopInsideChain` and `FlagWithoutValue`.
* With no percent escape (pymssql) the driver takes a `%s` or `%d` of the SQL's own for a slot. The
  placeholder translation is right exactly when there is none, or when the parameters fit neither
  the placeholders nor placeholders and slots together, so that both fail: `PlainStyle`, with two
  instances in `PercentSlotFails`.
* Different credentials can share a cache key: exactly those with a NUL in the URI or a setting
  (`KeyIsSharedIff`, with an instance in `NulCollides`); and a URI without configuration shares
  one exactly when it holds six NULs (`BareKeyIsShared`).
* An end event closes its own operation's span exactly when the operation's body leaves nothing
  open but scripts that the end drains, and the operation does not pass for a script itself
  (`OwnEndClosesOwn`). It fails for a migration named "script" (`NamedScriptRun`) and for a script
  end missing under an operation that drains nothing (`ScriptLeftUnderValidation`). dblift's own
  commands emit neither: their operations are not named "script" (dblift/api/client.py:515-524,
  1114-1118), and scripts run under migrate and undo only
  (dblift/core/migration/commands/_script_runner.py:89). A host may emit events on the client's
  emitter.
* `get_history` is documented to be in dispatch order. It is in emission order; the two agree
  exactly when every event was dispatched and none was sent while an older one waited in a flush
  (`HistoryIsDispatchOrder`, with runs in `HistoryWhileBuffering` and `HistoryOvertaken`).
* A flush left by an exception outside `Exception` drops exactly what stands behind the first
  event whose listeners raise it (`FlushLeavesRest`, with a run in `FlushAbandoned`). Where nothing
  raises one, nothing is left behind (`NoExitNoFatal`); where nothing starts a batch, none is
  dropped (`NoStartNoLoss`).

Assumptions: an event listener is a finite program of emitter calls that may depend on the event,
and listeners are not registered or removed while events are dispatched; SQLAlchemy refuses to
change the level of a connection with a transaction open, begins a transaction with the first
statement, and keeps the driver at the level its options say, or at the configured one; a
`format`-style driver reads `%%` and `%s` only, one without an escape `%s` and `%d` only; global flags are written with a dash.

## Model

| member | source | states |
|---|---|---|
| ProviderRegistry.EagerIsLastSuccess | dblift/db/provider_registry.py:463-474 | the eager table answers a key with the last registration covering it that loads, and with nothing exactly when none does |
| ProviderRegistry.EagerTableIsAnswerAt | dblift/db/provider_registry.py:463-474 | registering eagerly alias by alias gives for every key the answer computed along the key's chain |
| ProviderRegistry.DescriptorKeysAreLower | dblift/db/provider_registry.py:178-182 | every indexed key is in lower case already, so looking it up again finds it |
| ProviderRegistry.CoversMeans | dblift/db/provider_registry.py:178-182 | a registration covers the key of a name exactly if it goes by that name in some letter case |
| ProviderRegistry.AnswerIsRight | dblift/db/provider_registry.py:185-216 | a lookup gives the plugin of the last registration that goes by the name and loads, and nothing if none does |
| ProviderRegistry.QuirksAreRight | dblift/db/provider_registry.py:549-561 | the quirks have the class the plugin of that registration declares, and `BaseQuirks` if it declares none or there is none; their name is the asked one in lower case |
| ProviderRegistry.Registry.constructor | dblift/db/provider_registry.py:185-189 | an empty registry satisfies the invariant: every chain leads to what an eager registry would hold |
| ProviderRegistry.Registry.Index | dblift/db/provider_registry.py:178-182 | after the loop every alias holds the new entry, remembers what it held before, and is dropped from the quirks cache |
| ProviderRegistry.Registry.RegisterDescriptor | dblift/db/provider_registry.py:176-182 | indexing a descriptor touches exactly its aliases and keeps the invariant, without loading anything |
| ProviderRegistry.Registry.RegisterPlugin | dblift/db/provider_registry.py:463-474 | a loaded plugin takes over exactly its aliases in all three tables and keeps the invariant |
| ProviderRegistry.Registry.FallBack | dblift/db/provider_registry.py:204-210 | each alias still holding the failed entry falls back one step, or is dropped; no other alias changes |
| ProviderRegistry.Registry.Promote | dblift/db/provider_registry.py:212-215 | each alias still holding the loaded entry is settled to it; no other alias changes |
| ProviderRegistry.Registry.LoadFactory | dblift/db/provider_registry.py:195-202 | the factory is run only if the entry is not loaded, and its outcome kept; one that succeeds never runs again |
| ProviderRegistry.Registry.ResolveStep | dblift/db/provider_registry.py:190-216 | one turn of the lookup loop settles the key, or moves it to a strictly older entry; the answers of all keys stay the same |
| ProviderRegistry.Registry.Resolve | dblift/db/provider_registry.py:185-216 | the lookup terminates and returns what the eager registry holds, and changes no other key's answer |
| ProviderRegistry.Registry.GetQuirks | dblift/db/provider_registry.py:524-561 | the quirks, cached or not, have the class declared by the last loading registration that goes by the name, or `BaseQuirks`, and carry the key as their name |
| ProviderRegistry.Registry.ListPlugins | dblift/db/provider_registry.py:673-700 | the pending index is empty afterwards, the table is the eager one, and one plugin per name is listed |
| ProviderRegistry.UniqueByName | dblift/db/provider_registry.py:686-698 | no name twice, nothing that is not registered, every registered name |
| ProviderRegistry.Perform | dblift/db/provider_registry.py:176-216 | each registration, lookup, quirks request or listing replies as an eager registry with the same registrations |
| ProviderRegistry.LazyRun | dblift/db/provider_registry.py:176-216 | every interleaving of registrations and lookups gets the same replies from the lazy and from the eager registry, and each is the one the registrations before it call for |
| ProviderRegistry.EagerReplyIsRight | dblift/db/provider_registry.py:463-474 | the eager registry itself replies what the registrations call for: to lookups, quirks requests and listings |
| SqlScanner.FindIsFirst | dblift/db/dml_analysis.py:458-458 | substring search gives the first occurrence, and -1 exactly when there is none |
| SqlScanner.TagMeans | dblift/db/dml_analysis.py:449-449 | a dollar tag is two dollar signs with nothing or an ASCII identifier between them |
| SqlScanner.MatchTagIsTag | dblift/db/dml_analysis.py:449-454 | the tag found at a position is the only one the tag grammar allows there, and none is found only if none is there |
| SqlScanner.QuoteStep | dblift/db/dml_analysis.py:641-648 | one step inside a quote changes neither where the quote ends nor whether it closes |
| SqlScanner.NextIsTheSegment | dblift/db/dml_analysis.py:651-660 | the skipping helpers find exactly the one segment that the grammar of comments, dollar quotes, quotes and code allows at a position |
| SqlScanner.SegmentationUnique | dblift/db/dml_analysis.py:452-459 | every text has exactly one segmentation of the grammar, the one the helpers build |
| SqlScanner.KeywordPositionIsFirst | dblift/db/dml_analysis.py:663-696 | the scan gives the first match outside quotes, comments and dollar quotes with no parenthesis open before it, and -1 exactly when there is none |
| SqlScanner.MatchIsWord | dblift/db/dml_analysis.py:699-705 | a keyword matches at a position if and only if a word of the text, no letter, digit or underscore on either side, starts there and is the keyword up to letter case |
| SqlScanner.KeywordPositionIsFirstWord | dblift/db/dml_analysis.py:663-705 | so the scan gives the first top-level word that is the keyword, over any segmentation of the grammar |
| SqlScanner.ClampedDepthMeans | dblift/db/dml_analysis.py:689-692 | on any text, balanced or not, the clamped count is zero exactly where no parenthesis opened so far is still open |
| SqlScanner.FindTopLevelKeyword | dblift/db/dml_analysis.py:663-696 | the index loop terminates on every text and computes that position |
| SqlScanner.IsBalancedMeans | dblift/db/dml_analysis.py:527-564 | the refusing scan accepts exactly the texts with nothing open at the end, no nested block comment and no parenthesis closed too early |
| SqlScanner.CteScanIsBalanced | dblift/db/dml_analysis.py:527-564 | the index loop terminates on every text and decides that |
| SqlScanner.ClampNeverFires | dblift/db/dml_analysis.py:689-692 | on an accepted text the clamped depth is the true depth at every segment |
| SqlScanner.LockStep | dblift/db/dml_analysis.py:554-562 | while the refusing scan goes on, clamping and honest counting stop at the same hit |
| SqlScanner.MinimumIsOnePass | dblift/db/dml_analysis.py:516-524 | seven keyword scans and the smallest position give the same kind of statement as one pass that stops at any of the verbs |
| SqlScanner.ScanCteOuterStatementType | dblift/db/dml_analysis.py:509-524 | in strict mode the result is that of one pass at true depth zero on balanced texts and none on others; otherwise that of the clamping pass |
| SqlScanner.VerbByMinimum | dblift/db/dml_analysis.py:516-524 | the verb decision equals that of one clamping pass over all verbs |
| SqlScanner.PassFindsOuterVerb | dblift/db/dml_analysis.py:516-524 | that pass decides by the first top-level word among the seven verbs: modifying for INSERT, UPDATE, DELETE and MERGE, a query for SELECT, VALUES and TABLE, none if there is no such word |
| SqlScanner.OnePassFindsOuterVerb | dblift/db/dml_analysis.py:513-524 | on texts the refusing scan accepts the strict decision is the same |
| SqlScanner.FirstSmallest | dblift/db/dml_analysis.py:520-523 | the first of the smallest positions found, and none exactly when nothing was found |
| SqlScanner.StripLeadingSqlComments | dblift/db/dml_analysis.py:619-638 | the loop drops leading white space and comments, and raises in strict mode exactly when it passes a nested block comment |
| SqlScanner.StripEndsAtCode | dblift/db/dml_analysis.py:619-638 | what is left starts with neither white space nor a comment |
| SqlScanner.StripDropsComments | dblift/db/dml_analysis.py:619-638 | what is dropped is nothing but white space and comments of the grammar |
| SqlScanner.StripIdempotent | dblift/db/dml_analysis.py:619-638 | stripping twice is stripping once, and leaves no white space to strip |
| SqlScanner.StripCommutesWithScan | dblift/db/dml_analysis.py:619-696 | a keyword's position in the stripped text plus what was dropped is its position in the original, unterminated comments included |
| SqlScanner.SegmentShift | dblift/db/dml_analysis.py:641-660 | a segment of a suffix is a segment of the whole text: the grammar never looks back |
| SqlScanner.ScanOfSuffix | dblift/db/dml_analysis.py:663-705 | scanning a suffix that starts at a word boundary finds what the scan of the whole finds from there on |
| SqlScanner.AsciiIsSane | dblift/db/dml_analysis.py:699-705 | the conditions of the commutation hold for ASCII, the default delimiters and all seven verbs |
| SqlScanner.AsciiIsPlain | dblift/db/dml_analysis.py:699-705 | the conditions of the words hold in ASCII for every keyword of capital letters |
| OperationLock.StepKeepsValid | dblift/api/client.py:133-153 | every step of every thread keeps the invariant of lock, stacks, emitters and calls |
| OperationLock.RunIsValid | dblift/api/client.py:133-153 | so every state of every interleaving satisfies it |
| OperationLock.MutualExclusion | dblift/api/client.py:144-153 | at most one thread has operations on its stack, and it owns the lock once per held call |
| OperationLock.MutatingNeverNests | dblift/api/client.py:191-225 | below a mutating call there are only calls of its own operation through other wrappers |
| OperationLock.CloseRunsAlone | dblift/api/client.py:1360-1367 | while the close body runs no operation is active that was not started from inside it |
| OperationLock.RefusedMeans | dblift/api/client.py:191-225 | a mutating call is refused exactly when another operation, or the same through the same wrapper, is in progress on the thread; close exactly when any is |
| OperationLock.Admitted | dblift/api/client.py:143-153 | in every state of every run a thread can make a read-only call whatever it has in progress, a mutating one exactly when every operation in progress is the same through another wrapper, and a close exactly when there is none |
| OperationLock.UndisturbedCall | dblift/api/client.py:147-153 | a call that is let in and finds the lock free gets to its body, with itself on the stack and its emitter active, and from there, returning or raising, back to the state it was made in |
| OperationLock.UndisturbedClose | dblift/api/client.py:1360-1367 | so does a close, with stack and emitter as they are |
| OperationLock.HolderCanGoOn | dblift/api/client.py:147-147 | an operation or a close waiting for the lock can take it, or its holder is another thread that can go on |
| OperationLock.OuterCallsKept | dblift/api/client.py:147-153 | nested calls leave the calls around them as they are |
| OperationLock.CallRestores | dblift/api/client.py:144-153 | when a call is over, by return or by raising, its thread has the stack, the active emitter and the calls it had before |
| AsyncClient.StepKeepsValid | dblift/api/async_client.py:84-108 | every step of every task keeps the invariant of lock, jobs and cancellations |
| AsyncClient.RunIsValid | dblift/api/async_client.py:84-108 | so every state of every schedule satisfies it |
| AsyncClient.OneCallAtATime | dblift/api/async_client.py:84-108 | while a worker runs its task holds the lock and awaits it, and no other worker runs |
| AsyncClient.EndingOfSubmitted | dblift/api/async_client.py:94-108 | a caller ends only after its worker; uncancelled it gets exactly what the worker gave; cancelled it gets the cancellation exactly unless the worker ended outside `Exception` and the run has no moment at which a cancellation was pending with the worker done |
| AsyncClient.LateMeans | dblift/api/async_client.py:97-101 | the flag of a cancellation delivered to a finished worker is a fact about the run: there was such a moment |
| AsyncClient.CancellationStays | dblift/api/async_client.py:97-101 | a cancellation requested after submission is never forgotten |
| AsyncClient.CancelledEndsCancelled | dblift/api/async_client.py:97-108 | a caller cancelled while its worker runs ends cancelled, unless the worker ended outside `Exception` |
| AsyncClient.CancelledBeforeJob | dblift/api/async_client.py:84-88 | a call cancelled before its job is submitted never has one, and ends cancelled |
| AsyncClient.FatalOverridesCancellation | dblift/api/async_client.py:102-105 | a run in which that exception comes out of a cancelled call |
| AsyncClient.NothingAfterClose | dblift/api/async_client.py:85-88 | once closed the client stays closed, no worker runs and none is ever submitted |
| AsyncClient.EndingOfRefused | dblift/api/async_client.py:84-88 | a call that ended without a job and without being cancelled came to the lock of a closed client; it ended with the "is closed" error if and only if it is no close, and with nothing if and only if it is one |
| AsyncClient.EndingFitsCall | dblift/api/async_client.py:146-149 | no ordinary call ever ends like a second close, and no close is ever refused |
| AsyncClient.CallAfterClose | dblift/api/async_client.py:85-88 | every call made on a closed client ends so, unless cancelled |
| AsyncClient.EndingIsEarned | dblift/api/async_client.py:94-108 | what a call gets its own worker gave, after it came to the lock of an open client; a cancellation somebody asked for |
| AsyncClient.ClosedOnlyByClose | dblift/api/async_client.py:146-154 | the client is closed exactly when some close has been to the end of its job |
| AsyncClient.CallCanGoOn | dblift/api/async_client.py:84-108 | a call that has not ended can be cancelled and has a next step, with any result of its worker, or waits for another call that holds the lock; calls and closes can be made at any time |
| AsyncClient.CloseCloses | dblift/api/async_client.py:146-154 | a closing call that reached its worker closes the client, even when it is cancelled or raises |
| EventEmitter.EmitLeads | dblift/api/events.py:398-418 | emitting, however its listeners nest, keeps each event in one place, whatever waits in order, and the mode flags following the last start or stop; nothing is abandoned unless an exception outside `Exception` comes out |
| EventEmitter.FlushLeads | dblift/api/events.py:486-508 | so does flushing, also when such an exception leaves it half way |
| EventEmitter.PerformLeads | dblift/api/events.py:510-523 | and so does any listener program |
| EventEmitter.EachEventOnce | dblift/api/events.py:398-508 | every emitted event is exactly one of dispatched, awaiting dispatch, buffered, returned, dropped by a start call or left behind by a flush, once |
| EventEmitter.FlushRestoresMode | dblift/api/events.py:496-508 | after a flush batching is on, unless the last start or stop call made during it was a stop |
| EventEmitter.NoStartNoLoss | dblift/api/events.py:468-472 | where neither the program nor any listener starts a batch, a run drops no buffered event |
| EventEmitter.NoExitNoFatal | dblift/api/events.py:510-523 | where neither the program nor any listener raises outside `Exception`, no call ends that way and no flush leaves an event behind |
| EventEmitter.FlushLeavesRest | dblift/api/events.py:498-508 | a flush is left with exactly the events behind the first one whose listeners raise outside `Exception`, and with none if there is no such event |
| EventEmitter.FlushAbandoned | dblift/api/events.py:496-523 | a run that loses the second event of a batch that way, with no restart |
| EventEmitter.HistoryIsDispatchOrder | dblift/api/events.py:407-418 | the history is the dispatch order exactly when every event was dispatched and none was sent while an older one waited in a flush |
| EventEmitter.HistoryWhileBuffering | dblift/api/events.py:410-416 | a run whose history is ahead of what was dispatched |
| EventEmitter.HistoryOvertaken | dblift/api/events.py:498-500 | a run that dispatches everything, in another order than its history |
| EventEmitter.FlushDispatchesInOrder | dblift/api/events.py:498-500 | a flush dispatches its batch in emission order, whatever its listeners emit, start, stop or flush meanwhile: all of it, or exactly up to where an exception outside `Exception` leaves it |
| ListenerCalls.ListenersAreAudience | dblift/api/events.py:513-519 | an event goes to the exact listeners of its type and then to the wildcard listeners at exactly the matching places, in order |
| ListenerCalls.CallsInOrder | dblift/api/events.py:513-523 | a dispatch calls each listener once and in order whatever each of them raises, or exactly those up to the first that raises outside `Exception`; each finds the emitter as the ones before left it |
| ListenerCalls.DispatchCallsAudience | dblift/api/events.py:510-523 | the calls a dispatch makes at its own recursion depth are those of its audience |
| ListenerCalls.EmitSends | dblift/api/events.py:416-418 | an event emitted while not batching is dispatched, before anything its listeners emit |
| ListenerCalls.EmitBuffers | dblift/api/events.py:413-416 | an event emitted while batching is buffered last, and nobody is called |
| ListenerCalls.FlushCallsAudiences | dblift/api/events.py:498-500 | a flush that no listener leaves calls the audience of every event of its batch, event by event |
| ListenerCalls.ProgramStopsAtRaise | dblift/api/events.py:515-518 | a listener runs to its end, or up to its first call that raises, and ends as that call does |
| EventEmitter.EventEmitter.constructor | dblift/api/events.py:468-484 | a new emitter is empty and not batching |
| EventEmitter.EventEmitter.Emit | dblift/api/events.py:398-418 | the method leaves every field as the specification of emitting says |
| EventEmitter.StartKeepsValid | dblift/api/events.py:468-472 | a start call, with whatever buffered and at any moment of a flush, keeps every event in one place and everything that waits in order |
| EventEmitter.StopKeepsValid | dblift/api/events.py:474-484 | so does a stop call, and the batch it returns is in emission order |
| EventEmitter.EventEmitter.FlushBatches | dblift/api/events.py:486-508 | the method leaves every field as the specification of flushing says, and does nothing when not batching |
| EventEmitter.EventEmitter.SendOut | dblift/api/events.py:510-523 | exact listeners, then matching wildcard listeners, each running its program; an `Exception` of one does not stop the others, anything else does |
| EventEmitter.Drive | dblift/api/events.py:398-523 | any program of calls leaves the emitter consistent and in the state the specification gives |
| ArgvSplitter.ExtractCommandsFromArgv | dblift/cli/_config_helpers.py:92-172 | the index loop computes the three lists the labels define, and they weave back into the argv |
| ArgvSplitter.SplitLosesNothing | dblift/cli/_config_helpers.py:119-172 | every token goes into exactly one of the splitter's lists, in order |
| ArgvSplitter.LabelsAreRight | dblift/cli/_config_helpers.py:117-170 | the labelling is the only one in which every token is what the tokens before it make it: a value of the flag before it, a command before any `db`, `license` or `data`, a global flag, or an argument |
| ArgvSplitter.ShapeOfParts | dblift/cli/_config_helpers.py:137-170 | the globals found are flags each with its value if it wants and has one; no global flag is left to the subcommand |
| ArgvSplitter.RebuiltParts | dblift/cli/_config_helpers.py:185-186 | what splitting a rebuilt argv gives, in terms of its parts |
| ArgvSplitter.RebuiltSplitsBack | dblift/cli/_config_helpers.py:185-186 | splitting the rebuilt argv gives the command and the same two lists, if and only if the last global flag has its value and the command stops or no command word is loose |
| ArgvSplitter.LooseMeans | dblift/cli/_config_helpers.py:156-168 | a command word stands loose among arguments exactly if it is not the value of the flag before it |
| ArgvSplitter.StopInsideChain | dblift/cli/_config_helpers.py:128-135 | the chain migrate db migrate does not split back |
| ArgvSplitter.FlagWithoutValue | dblift/cli/_config_helpers.py:141-157 | a trailing `--config` takes the command for its value in the rebuilt argv |
| ArgvSplitter.ChainSplitsBack | dblift/cli/main.py:823-834 | so a chain without stop commands, or a single stop command, always splits back command by command |
| ConfigMerge.DeepMergeDicts | dblift/config/dblift_config.py:599-608 | the recursive loop over a copy of the base computes the merge |
| ConfigMerge.MergedAt | dblift/config/dblift_config.py:602-607 | what the merge holds under one key depends only on what both sides hold there |
| ConfigMerge.MergedByKind | dblift/config/dblift_config.py:599-609 | null and the empty text alone leave the base value; a text, number or list replaces it, a mapping merges with a mapping and replaces anything else |
| ConfigMerge.MergeIdempotent | dblift/config/dblift_config.py:599-608 | merging a configuration over itself changes nothing |
| ConfigMerge.AbsorbedMeans | dblift/config/dblift_config.py:599-608 | an override hides its base altogether exactly when it absorbs it |
| ConfigMerge.MergeAssociative | dblift/config/dblift_config.py:599-608 | merging is associative exactly when no mapping is hidden by a non-empty other value before a mapping that does not absorb it |
| ConfigMerge.HiddenMapping | dblift/config/dblift_config.py:602-607 | a mapping, a number and another mapping under one key, merged in both orders with different results |
| ConfigMerge.MergeLeaf | dblift/config/dblift_config.py:599-608 | at a path neither side contradicts in shape, the merged value is the override's if it has one, else the base's |
| ConfigMerge.MergeAllLeaf | dblift/config/dblift_config.py:1039-1041 | over any number of sources, the value is that of the highest source that has one |
| ConfigMerge.SelectorsAreStripped | dblift/config/dblift_config.py:295-315 | a selector key is in the result exactly when the selected block holds a non-empty value under it |
| ConfigMerge.BlockOfMeans | dblift/config/dblift_config.py:306-306 | a missing, null or empty `environments` section has no block, a mapping the one under the name, anything else is an error |
| ConfigMerge.SelectorComesBack | dblift/config/dblift_config.py:295-315 | a configuration whose block brings a selector key back |
| ConfigMerge.SelectEnvironment | dblift/config/dblift_config.py:251-292 | the name selected follows the documented precedence, the first fitting branch pattern last; none, the declared name, or an error for an undeclared one |
| ConfigMerge.SelectionUnique | dblift/config/dblift_config.py:256-264 | that precedence leaves nothing open: one selection has one name |
| ConfigMerge.DeclaredApplies | dblift/config/dblift_config.py:286-315 | a selected environment can only fail to apply when its own block is neither a mapping nor null |
| ConfigMerge.LoadOrder | dblift/config/dblift_config.py:517-558 | the steps of loading merge file, environment block, variables and arguments in this order, empty ones skipped without effect |
| ConfigMerge.EffectiveLeaf | dblift/config/dblift_config.py:533-558 | the documented precedence: command line, then environment variables, then the selected block, then the root sections |
| OtelSpans.OtelHandle.OnEvent | dblift/integrations/opentelemetry.py:142-183 | the method with its draining loop leaves stack, spans, context and markers as the specification of one event says |
| OtelSpans.RunKeepsValid | dblift/integrations/opentelemetry.py:142-183 | after any events every span is either open and on the stack or ended exactly once, and tokens are given back in reverse order |
| OtelSpans.DrainClosesCuts | dblift/integrations/opentelemetry.py:159-170 | draining closes exactly the leaked script spans above the operation, innermost first, and stops there |
| OtelSpans.CutsClosed | dblift/integrations/opentelemetry.py:159-170 | the spans so closed are exactly those of the scripts whose end is missing |
| OtelSpans.ReachingEndCloses | dblift/integrations/opentelemetry.py:157-181 | the end of a migrate or undo that reaches its own span, whatever ran inside, closes every script still open above it as an error and gives back stack and context |
| OtelSpans.RunAdds | dblift/integrations/opentelemetry.py:145-181 | for script ends missing under any operation, the stack a run leaves is the one read off the bracketing |
| OtelSpans.OwnEndClosesOwn | dblift/integrations/opentelemetry.py:150-181 | an end closes its operation's own span with its own status if and only if the body leaves nothing open that the end does not drain and the operation is not a migration named script, unless it failed with a message |
| OtelSpans.OwnSpanSays | dblift/integrations/opentelemetry.py:173-178 | then the span is fine exactly if the end event is a completed one without failures or message, and in error, with the message, otherwise |
| OtelSpans.ScriptEndMissing | dblift/integrations/opentelemetry.py:157-178 | a script end missing right before the end of its operation: migrate and undo close the script as leaked and then themselves; the end of any other operation closes the script and leaves the operation open |
| OtelSpans.MarkerGoesToCurrent | dblift/integrations/opentelemetry.py:182-183 | a marker is recorded on the span that is current, if any, and changes nothing else |
| OtelSpans.SpanIsNamed | dblift/integrations/opentelemetry.py:88-104 | the name of the span each start event opens |
| OtelSpans.NamedScriptClosesOuter | dblift/integrations/opentelemetry.py:157-181 | the migration named script is closed as leaked, then every script below it, and then, with the status meant for it, the innermost other span |
| OtelSpans.CompleteRun | dblift/integrations/opentelemetry.py:142-183 | a complete run, well bracketed except for script ends missing directly under a migrate or undo, ends every span it started as its events say and gives back the stack and the context |
| OtelSpans.LooksLikeScript | dblift/integrations/opentelemetry.py:88-104 | which start events make a span that passes for a script's |
| OtelSpans.NamedScriptRun | dblift/integrations/opentelemetry.py:88-104 | a migration named script alone: successful, and ended as a leaked error |
| OtelSpans.ScriptLeftUnderValidation | dblift/integrations/opentelemetry.py:150-181 | a script end missing under a validation inside a migrate: the migrate's own span stays open |
| Isolation.Provider.ExecuteStatement | dblift/db/sqlalchemy_provider.py:362-371 | a statement commits at once exactly outside an explicit transaction on a connection of dblift's own; a failing one leaves its transaction open |
| Isolation.Provider.BeginTransaction | dblift/db/sqlalchemy_provider.py:472-476 | fails exactly when a transaction is open already, and leaves everything as it was then |
| Isolation.Provider.CommitTransaction | dblift/db/sqlalchemy_provider.py:478-484 | commits the explicit transaction and nothing else, forgets the caller's work, and fails exactly when that transaction is over |
| Isolation.Provider.RollbackTransaction | dblift/db/sqlalchemy_provider.py:486-494 | rolls back the explicit transaction, or without one whatever is open |
| Isolation.Provider.EndOpenTransaction | dblift/db/sqlalchemy_provider.py:496-502 | nothing is open afterwards, and what was open is rolled back |
| Isolation.Provider.RestoreIsolationLevel | dblift/db/sqlalchemy_provider.py:542-583 | options are the captured ones and the level is what they say, or the configured one; refused only with a transaction open |
| Isolation.Provider.ExecuteAutocommitStatement | dblift/db/sqlalchemy_provider.py:504-539 | the statement runs at level AUTOCOMMIT in a transaction of its own; failing or not, an open connection has its options and level back, and levels were set with nothing open |
| Isolation.Provider.CommitCallerWork | dblift/db/sqlalchemy_provider.py:407-413 | commits the noted transaction if it is still the current one, which has not ended since, and otherwise nothing |
| Isolation.Perform | dblift/db/sqlalchemy_provider.py:401-539 | any action of the provider or of the caller keeps the options and level of an open connection, and the note is that of the last noting |
| Isolation.Serve | dblift/db/sqlalchemy_provider.py:401-539 | so does any sequence of actions, and no level is ever set with a transaction open |
| SecretsCache.KeyMeans | dblift/config/secrets/_resolver.py:14-31 | of two NUL-free inputs the keys are the same exactly for the same URI and the same credentials, null and empty alike |
| SecretsCache.KeyIsSharedIff | dblift/config/secrets/_resolver.py:14-31 | the key of a URI and a configuration is that of another URI or other credentials if and only if one of its parts holds a NUL |
| SecretsCache.BareKeyIsShared | dblift/config/secrets/_resolver.py:14-31 | the key of a URI without configuration is that of a URI with one if and only if it holds six NULs |
| SecretsCache.NulCollides | dblift/config/secrets/_resolver.py:14-31 | with a NUL two different credentials share a key |
| SecretsCache.JoinInjective | dblift/config/secrets/_resolver.py:24-31 | joining with NUL loses nothing when no part holds one |
| SecretsCache.SecretsCache.Get | dblift/config/secrets/_cache.py:21-28 | gives the value of an entry that has not expired, and drops an expired one |
| SecretsCache.Resolver.ResolveUri | dblift/config/secrets/_resolver.py:49-78 | the value is served if and only if there is an answer for that URI and those credentials since the cache was cleared and the latest is younger than the time to live in force when it was stored; it is that answer; the provider is asked exactly otherwise |
| SecretsCache.Resolver.Keep | dblift/config/secrets/_resolver.py:77-77 | storing an answer keeps every other cached entry right, and none that has not expired is missing |
| SecretsCache.Resolver.ResolveSecretRefs | dblift/config/secrets/_resolver.py:34-46 | the walk keeps the tree and replaces every secret URI by a value supplied for it under these credentials; every serving ever made stays justified, whatever the changes of the time to live |
| SecretsCache.Resolver.ClearCache | dblift/config/secrets/_resolver.py:81-83 | the cache is empty afterwards |
| SecretsCache.EntryStored | dblift/config/secrets/_cache.py:30-31 | overwriting one key leaves every entry meaning the latest answer for whatever it can be asked for |
| Version.AtLeastIsLexicographic | dblift/db/version.py:34-40 | the comparison is the lexicographic order of the three components |
| Version.MatchAtIsGreedy | dblift/db/version.py:47-47 | the match at a position exists whenever the pattern fits there at all, and no fit goes further |
| Version.SearchIsLeftmost | dblift/db/version.py:60-62 | the match used is the leftmost one |
| Version.ParseBanner | dblift/db/version.py:50-69 | the numbers are found after any text without digits and before any text that does not carry them on |
| Version.PrintRoundTrip | dblift/db/version.py:25-69 | printing and parsing back gives the same components for all natural numbers and any build text |
| Version.MinimumMeans | dblift/db/version.py:72-89 | a printed version meets a printed minimum followed by `+` exactly when it does not precede it lexicographically |
| Version.ExactMeans | dblift/db/version.py:72-89 | and a printed version without `+` exactly when the components are the same |
| Version.SpecMeans | dblift/db/version.py:72-89 | the same for every text as specification; nothing is met where either side cannot be read |
| DriverBind.FormatStyle | dblift/db/sqlalchemy_provider.py:326-328 | for every SQL and every percent sign in it, translation followed by the driver's expansion puts each parameter for its `?`, and fails exactly when the counts differ |
| DriverBind.PlainStyle | dblift/db/sqlalchemy_provider.py:326-328 | without an escape that holds if and only if the SQL has no `%s` or `%d`, or the parameters are as many as neither the `?` nor the `?` and those slots |
| DriverBind.PercentSlotFails | dblift/db/sqlalchemy_provider.py:326-328 | two texts with a slot of their own, `%s?` and `%d?`, for which the translation is wrong |
| DriverBind.QmarkStyle | dblift/db/sqlalchemy_provider.py:324-325 | a driver that wants question marks gets the text and the parameters as they are |
| DriverBind.RenamePlaces | dblift/db/sqlalchemy_provider.py:329-337 | the i-th `?` becomes the i-th name, everything else stays, and it fails exactly when names run out |
| DriverBind.NumberedStyle | dblift/db/sqlalchemy_provider.py:329-337 | numbered binding works exactly when there are parameters enough; then the i-th `?` is a colon or a dollar sign and i, counted from one, and the parameters keep their order |
| DriverBind.NamedStyle | dblift/db/sqlalchemy_provider.py:306-311 | named binding works when the names do not run out; then the i-th `?` is the name the i-th parameter is bound to |
| DriverBind.ZipKeepsAll | dblift/db/sqlalchemy_provider.py:309-309 | pairing different names with values loses none |
| Decimals.DecimalRoundTrip | dblift/db/version.py:63-68 | reading the decimal notation of a number gives the number |

## Left out

- Provider discovery (entry points, the file-system scan with its skip of descriptors whose key is pending, module introspection): the model starts from the registrations actually made.
- Registry keys are lower-cased in ASCII only; `str.lower` on other characters is not modelled.
- The order of `list_plugins` and of the pass over the pending index (dictionary order) is left open: the results hold for any order.
- Concurrent use of `get_quirks`, factories that re-enter the registry, and factories whose outcome changes between two attempts.
- sqlglot parsing and everything in `dblift/db/dml_analysis.py` beyond the lexical scanners; upper-casing is per character, so the one context-dependent case of Unicode is not modelled.
- The client operations themselves, the fallback without lock or thread state, and clients sharing a thread beyond the emitter they bind.
- The fairness of `asyncio.Lock`: a new caller may overtake queued ones in the model, so the results hold for more schedules than asyncio produces. Executor failures and a worker raising `CancelledError` are left out.
- Registering and removing listeners, wildcard matching (a parameter), building and validating events, interrupts between two steps of the emitter, and the interpreter's recursion limit beyond a call depth that runs out.
- Glob matching of branch patterns (a parameter), the reading of a malformed `resolve` section, environment placeholders in YAML, and the `validate-sql` filler.
- argparse, command handlers, console output and logging.
- A connection that SQLAlchemy invalidates and reconnects instead of closing: a statement that loses its connection leaves it closed.
- Commits and rollbacks that themselves fail, a provider closed while in use, savepoints, and the engine-specific read scopes of caller-owned connections.
- Driver expansion for numbered and named parameter styles: for these only the placing of names and their bindings is proved.
- Secret providers, their registry and the two-phase bootstrap of the secrets block; dictionary keys of a configuration tree are kept as they are.
- Non-ASCII digits, which the version pattern also accepts, and versions with negative components, which no parser produces.
- Span attributes beyond the event a span was closed with, and exceptions raised by the tracing library.
