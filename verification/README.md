# A verified model of the OpenTelemetry configuration library mkot

mkot builds OpenTelemetry providers from a configuration. This project models the parts of it that
hold state, run a protocol or do arithmetic, and proves what they promise:

- **The Prometheus reader** (`PrometheusReader.dfy`): any number of goroutines calling Start and
  Shutdown, the serve goroutine, one AfterFunc hook per HTTP server, and context cancellation, as
  atomic steps. Safety holds over every interleaving; progress comes from a ranking.
- **The resolver** (`Building.dfy`, `Resolving.dfy`, `Lifecycle.dfy`, `ResolverObject.dfy`, with ids in
  `Ids.dfy`): all-or-nothing construction of providers, the table of built providers over any run of
  requests, start-up with rollback and best-effort shutdown, for every map order.
- **Shared writers** (`Writers.dfy`, `Outputs.dfy`): a reference-counted writer, the fan-out of writes
  and closes, and the transaction that opens a list of outputs in which one writer may occur often.
- **Fixed-width log lines** (`Digits.dfy`, `Durations.dfy`, `Sizes.dfy`, `Values.dfy`, `Kinds.dfy`,
  `Lines.dfy`, `Records.dfy`): eight-character durations, five-character sizes, nested values with
  elision, the kind of a record from its attributes, and lines whose fields read back from their columns.
- **Two caches against their specifications** (`Certs.dfy`, `MapLists.dfy`): the reloading client
  certificate, and the pair list that stands for a map.

Code that updates state in place is a method against a specification function or predicate; the
lemmas are about that specification. What lies outside (the SDK, HTTP and gRPC, files, the clock, the
builders of exporters and processors) comes in as parameters that say what it would reply, and every
theorem holds for all such replies. Traces of the calls made are ghost state.

## Findings

Where a property that one might expect is false of the code, the model keeps the code; a lemma gives
an input, and another the exact condition.

- Shutdown of a Prometheus reader may wait for ever with the mutex held, so that every later Start
  and Shutdown waits as well: cancelling the reader's own context stops no server. Let the reader be
  left to itself, that is, no server fails on its own and the context given to Start is not ended. A
  waiting Shutdown then can return if and only if that context is done or the serve goroutine is past
  listening in its current round (`ShutdownReturnsIffFreed`). It stays able to return whatever happens
  if and only if that context is done or the serve goroutine has left its loop
  (`ShutdownSurelyReturnsIff`), and then it and the serve goroutine take at most ten steps, and six more
  for each time the timer wins the select, until it has returned (`BoundShutdownReturns`). It waits for ever for a reader that was started and
  serves with a live context (`LiveContextWaits`), for one that was never started
  (`NeverStartedWaits`), and, though it could have returned, when with a live context the timer wins the
  select and the server listens again (`TimerSendsBack`). Ending the start context helps a started
  reader but never one that was not started (`ShutdownCanReturnIffStarted`).
- When an exporter is listed twice in one provider, the earlier of the two components is overwritten
  and is never started or shut down (`RepeatedIdLoses`). All components stay tracked if and only if no
  id is repeated (`TrackedIffDistinct`, `SuccessfulBuildLosesIff`).
- A first-time build that fails drops the components that exporters have already handed over: no entry
  holds them, so nothing will shut them down (`FailedBuildLoses`). There are such components if and
  only if every processor contributes, the list of exporters is not empty and its first one resolves
  (`FailedBuildLosesIff`).
- A logger yields nil where a tracer or meter yields a no-op provider (`UnconfiguredNamesDiffer`), if
  and only if its name is neither built nor configured (`NilIffLoggerUnconfigured`).
- The method bar of a response is out of its column for a four-digit status code (`LongCodeMovesBar`).
  For durations and sizes that are not negative it is in its column if and only if the status code is
  absent or has three digits (`MethodBarColumn`).
- Negative durations and sizes break the fixed width: a size takes five columns if and only if it is
  not negative (`FiveWideIff`), a duration eight if and only if it is not negative or its whole
  microseconds within the millisecond are zero (`EightWideIff`).
- A slice that holds one blank value renders like an empty slice (`LoneBlankDisappears`), and a text is
  written without quotes, so `[]` may be a text or a slice (`CharactersAreAmbiguous`). Values render to
  the same tokens if and only if they have the same shape (`RenderAlikeIffSameShape`).
- The comment on the name pattern speaks of 1 to 1024 characters (`identifiable.go`, lines 23-26); the
  pattern has no upper bound, and names of every length are accepted (`LongNamesAccepted`). The comment
  describes what is accepted if and only if the name has at most 1024 characters (`DocumentedIffShort`).
- WithName does not give back `a/` for its own name (`RenamingDropsSlash`): it gives an id back if and
  only if the id does not end in its only slash (`RenamingIsIdentity`).

## Model

| member | source | states |
|---|---|---|
| PrometheusReader.StepKeepsInv | prometheus/exporter.go:74-121 | Every statement of Start, Shutdown and the serve loop, every hook and every context ending keeps mutual exclusion, what the lock holder knows, and the agreement of the flags with the goroutine and the channel |
| PrometheusReader.RunKeepsInv | prometheus/exporter.go:74-121 | The invariant survives every interleaving of any length |
| PrometheusReader.ReachableIsSafe | prometheus/exporter.go:74-121 | However many Starts and Shutdowns interleave: at most one serve goroutine, done closed at most once, one call in the critical section, only the hook of the current server armed, no Shutdown returned before that goroutine exited, a nil from Start only when it runs or ran, an error only when closed |
| PrometheusReader.TurnedAwayOverRun | prometheus/exporter.go:78-80 | A goroutine that comes to Start after closing never gets past the closed check |
| PrometheusReader.StartAfterShutdownFails | prometheus/exporter.go:74-121 | Once some Shutdown has returned, every Start called later fails with "already closed" |
| PrometheusReader.StepLowersRank | prometheus/exporter.go:86-104 | With r.ctx done and the serve goroutine free to exit, every step of that goroutine, of its server's hook and of the waiting Shutdown lowers the rank, no other step raises it, and losing the select to the timer raises it by at most six |
| PrometheusReader.RankBoundsRun | prometheus/exporter.go:86-120 | Over any run these goroutines take at most ten steps plus six for each time the timer wins, as long as it cannot send the goroutine back to listening for ever |
| PrometheusReader.DueStep | prometheus/exporter.go:86-120 | While Shutdown waits one of these goroutines can always move, ListenAndServe being bound to return only once its server was shut |
| PrometheusReader.ShutdownProgress | prometheus/exporter.go:86-120 | Steps are bounded, and when no such step is left Shutdown has returned, done is closed once and the serve goroutine has exited |
| PrometheusReader.WindDown | prometheus/exporter.go:86-120 | From every such state there is a run without help from outside, no longer than the rank, in which Shutdown returns |
| PrometheusReader.StuckForever | prometheus/exporter.go:109-121 | Shutdown of a reader never started waits in every run, and no other call that had not returned before returns |
| PrometheusReader.BlockedForever | prometheus/exporter.go:86-121 | While the start context is live and the serve goroutine is not past listening, or there is none, Shutdown waits in every run without help from outside, and no other call that had not returned before returns |
| PrometheusReader.ShutdownReturnsIffFreed | prometheus/exporter.go:74-121 | In every reachable state a waiting Shutdown can return without help from outside if and only if the start context is done or the serve goroutine is past listening; if not it waits for ever |
| PrometheusReader.ShutdownSurelyReturnsIff | prometheus/exporter.go:86-121 | In every reachable state a waiting Shutdown can still return after every run without help from outside if and only if the start context is done or the serve goroutine has left its loop |
| PrometheusReader.BoundShutdownReturns | prometheus/exporter.go:86-121 | If so, every run whatsoever takes at most ten of the steps that lead there, and six more for each time the timer wins, and one with none left to take has let Shutdown return |
| PrometheusReader.MayBlock | prometheus/exporter.go:98-103 | If not, though it could return, some run without help from outside lets the timer win the select, and Shutdown waits for ever |
| PrometheusReader.TimerSendsBack | prometheus/exporter.go:98-103 | A run reaches a state in which Shutdown can return until the timer wins the select |
| PrometheusReader.StartedCanReturn | prometheus/exporter.go:109-121 | Ending the start context lets a waiting Shutdown of a started reader return |
| PrometheusReader.ShutdownCanReturnIffStarted | prometheus/exporter.go:74-121 | In every reachable state a waiting Shutdown can return with help from outside if and only if the reader was started |
| PrometheusReader.NeverStartedWaits | prometheus/exporter.go:109-121 | A run of a reader never started reaches the state in which Shutdown waits for ever |
| PrometheusReader.LiveContextWaits | prometheus/exporter.go:86-121 | A run of a started reader that serves with a live start context reaches a state in which Shutdown waits for ever |
| Ids.CutRejoins | identifiable.go:35-38 | The two parts of an id and whether there was a slash make up the whole id |
| Ids.WithNameReadsBack | identifiable.go:40-57 | WithName keeps the type and stores exactly the name given, slashes and the empty name included |
| Ids.WithNameInjective | identifiable.go:50-57 | Two results of WithName are equal exactly when the types and the names are |
| Ids.RenamingIsIdentity | identifiable.go:40-57 | Naming an id after itself gives it back exactly when it does not end in its only slash |
| Ids.RenamingDropsSlash | identifiable.go:40-57 | Naming `a/` after itself gives `a` |
| Ids.ParseSucceedsIff | identifiable.go:64-97 | A text is accepted exactly when its trimmed type matches and so does its trimmed name, if there is a slash |
| Ids.ParseComplains | identifiable.go:69-88 | Which complaint a text meets, in terms of its slash and its trimmed parts |
| Ids.TrimCuts | identifiable.go:67-81 | Trimming cuts off all spaces at both ends and nothing else |
| Ids.TypePattern | identifiable.go:21-21 | Types have 1 to 63 characters, an ASCII letter and then letters, digits and underscores |
| Ids.DocumentedIffShort | identifiable.go:23-26 | The comment on the pattern describes what is accepted exactly for names up to 1024 characters |
| Ids.LongNamesAccepted | identifiable.go:26-26 | Names of every length are accepted |
| Ids.ParseIsCanonical | identifiable.go:64-97 | Whatever is accepted is stored with a valid type and, after a slash, a valid name |
| Ids.CanonicalParses | identifiable.go:64-97 | A canonical id is read as itself |
| Ids.ReadsBackIffCanonical | identifiable.go:59-97 | Reading what MarshalText wrote gives the id back exactly for canonical ids |
| Ids.IdVariable.UnmarshalText | identifiable.go:64-97 | Stores the id that the text denotes, or reports the first complaint and leaves the variable alone |
| Building.BuildSucceedsIff | resolver.go:135-194 | A first-time build succeeds exactly when every listed processor exists, fits the signal and gives non-nil options, and every listed exporter resolves, a meter's exporter being tried only when its reader is unimplemented |
| Building.BuildNamesFirstOffender | resolver.go:135-186 | A failed build names the first processor at fault, or else the first exporter that does not resolve, with the cause that configuration and replies give (missing, not for the signal, or as reported), and all before it were fine |
| Building.BuildKeepsListOrder | resolver.go:135-192 | The options are the caller's, then the processors', then the exporters', each in list order, and the components are what the exporters built, by id |
| Building.BuildTakesAll | resolver.go:135-192 | Said of the replies alone: the options are the caller's, those each processor gave, those each exporter came with (for a meter its reader, or else its metric exporter), and the components are those that came with them |
| Building.TrackHoldsLast | resolver.go:179 | An id holds the component of its last position in the list |
| Building.TrackedIffDistinct | resolver.go:162-186 | Of different components all stay tracked exactly when no exporter is listed twice |
| Building.BuildAsksInOrder | resolver.go:136-186 | The calls of a build are for processors and then for exporters, in list order and at most once for each position; exactly those are asked that exist, fit and have no offender before them, and a meter's metric exporter is asked exactly when the reader is unimplemented |
| Building.RepeatedIdLoses | resolver.go:179 | Of two components under one id only the later stays |
| Building.HandedIff | resolver.go:136-186 | A build is handed some component exactly when every processor contributes and the first exporter resolves |
| Building.BuiltTracksHanded | resolver.go:162-192 | A build that succeeds tracks by id all it was handed |
| Resolving.ProviderIds | resolver.go:122-122 | The keys are tracer, meter and logger, with a slash and the name unless it is empty |
| Resolving.ProviderHasAll | resolver.go:135-193 | A provider built for a request has, and its entry tracks, all that the replies gave, in list order |
| Resolving.RequestNamesFirstOffender | resolver.go:135-186 | A first-time request that fails reports the first offender and its cause |
| Resolving.ProviderIdsDiffer | resolver.go:122-122 | A signal and a name have a key of their own, whatever slashes the names contain |
| Resolving.HandleKeepsSound | resolver.go:119-357 | Every request leaves each entry under a key of its signal, no provider under two keys, and older entries as they were |
| Resolving.RunKeepsEntries | resolver.go:119-357 | Over any run of requests no entry is changed or removed |
| Resolving.TypeAssertionsHold | resolver.go:126-128 | In every reachable table the entry for a signal and name is a provider of that signal, so the type assertion cannot fail |
| Resolving.FailedRequestKeepsTable | resolver.go:130-186 | A request that fails changes nothing in the table and returns no real provider; one that succeeds returns the entry of its key |
| Resolving.LaterRequestsReuse | resolver.go:126-194 | Once a request succeeded every later one for the same signal and name returns the same provider and calls no processor or exporter, whatever came between |
| Resolving.SameProviderIffSameRequest | resolver.go:119-357 | Two successful requests of a run get the same provider exactly when signal and name agree |
| Resolving.NilIffLoggerUnconfigured | resolver.go:286-296 | The answer is nil exactly for a logger whose name is neither built nor configured, and the error is that it does not exist exactly for such names |
| Resolving.UnconfiguredNamesDiffer | resolver.go:130-133 | For one unconfigured name a tracer is a no-op provider and a logger nil |
| Resolving.FailedBuildLosesIff | resolver.go:135-186 | A failed first-time request leaves the table as it was, and what it was handed is in no entry; it was handed something exactly when every processor contributes and the first exporter resolves |
| Resolving.SuccessfulBuildLosesIff | resolver.go:179-192 | A successful first-time request leaves a component in no entry exactly when an exporter is listed twice |
| Resolving.FailedBuildLoses | resolver.go:162-186 | A configuration whose second exporter does not exist loses the component of the first |
| Lifecycle.StartUpSucceedsIff | resolver.go:78-95 | In every map order start-up succeeds exactly when no startable component fails |
| Lifecycle.RollbackIsExact | resolver.go:59-96 | Each component is started at most once; after a failure exactly those that started and support Shutdown were shut down, once each, and after a success none |
| Lifecycle.StopsKeepOrder | resolver.go:66-75 | Rollback shuts down in the order of starting |
| Lifecycle.ShutdownIsOrderFree | resolver.go:98-117 | In any two orders Shutdown visits the same components, joins the same collection of errors, and joins none exactly when none failed |
| ResolverObject.ConfigObject.IsEnabled | config.go:38-40 | A configuration is enabled unless it says otherwise |
| ResolverObject.ConfigObject.Value | resolver.go:34-42 | A nil map holds nothing, any other what it holds |
| ResolverObject.Make | resolver.go:30-47 | A missing or disabled configuration counts as an empty one and is left alone; an enabled one gets its missing maps and keeps its contents; the table starts empty |
| ResolverObject.Resolver.AskProcessor | resolver.go:137-158 | One processor gives its options or its fault, and is called only if it fits |
| ResolverObject.Resolver.AskExporter | resolver.go:240-268 | One exporter gives its component and options or its cause; a metric reader is preferred and the metric exporter called exactly when the reader is unimplemented |
| ResolverObject.Resolver.BuildProcessors | resolver.go:136-161 | The loop over processors yields the specified options or error and makes the specified calls |
| ResolverObject.Resolver.AddExporter | resolver.go:163-182 | One exporter is added to what came of those before it, or ends the loop with the specified error |
| ResolverObject.Resolver.BuildExporters | resolver.go:162-186 | The loop over exporters yields the specified options and components or error and makes the specified calls |
| ResolverObject.Resolver.BuildProvider | resolver.go:135-193 | A first-time build answers and changes the table as specified |
| ResolverObject.Resolver.EntryIsOfSignal | resolver.go:126-128 | In a valid resolver the entry found is of the signal asked for |
| ResolverObject.Resolver.TracerProvider | resolver.go:119-194 | Tracer refines the request specification, with the type assertion proved safe; no component is started or shut down |
| ResolverObject.Resolver.MeterProvider | resolver.go:196-280 | Meter refines the request specification, with the type assertion proved safe |
| ResolverObject.Resolver.LoggerProvider | resolver.go:282-357 | Logger refines the request specification, with nil for an unconfigured name |
| ResolverObject.Resolver.RollBack | resolver.go:66-75 | Shuts down those that support it, in order |
| ResolverObject.Resolver.Start | resolver.go:59-96 | Whatever order the maps give, the calls made are those of a start-up that stops at the first failure, followed by its rollback |
| ResolverObject.Resolver.ShutdownProvider | resolver.go:101-113 | The components of one provider are visited whatever order its map gives |
| ResolverObject.Resolver.Shutdown | resolver.go:98-117 | Whatever order the maps give, every component that supports it is shut down once and all failures are reported |
| Writers.RunIsSound | io.go:24-68 | For every run in which holders only use what they hold: the count is successful opens minus closes, the underlying writer is open exactly while it is positive, its opens and closes alternate, and every write reaches an open writer in order |
| Writers.SharedWriter.Open | io.go:26-43 | The first open opens the underlying writer; a failed one changes no count |
| Writers.SharedWriter.Write | io.go:52-57 | A holder's write reaches the live underlying writer |
| Writers.SharedWriter.Close | io.go:59-68 | The last close closes the underlying writer and no other does |
| Outputs.WriteAll | io.go:72-84 | Each handle up to the first that fails or writes less gets the data once, so a writer listed twice gets it twice; the error and count are that handle's, and nothing reaches the others |
| Outputs.FirstIsFirst | io.go:86-94 | The error of a fan-out close is the first one in list order |
| Outputs.CloseAll | io.go:86-94 | Every handle is closed once even when closes fail, shared counts drop by the number of their handles, and the first failure is reported |
| Outputs.StandardOutputs | io.go:96-103 | The store starts with a shared writer each for stdout and stderr |
| Outputs.OutputStore.Lookup | io.go:107-116 | A path without an opener gets one for good, which opens the file |
| Outputs.OutputStore.OpenAll | io.go:119-131 | Either every path is open, in order, or the error is that of the first that failed and everything opened before was closed once, with every shared count as before, also when paths repeat |
| Outputs.OpenConfigured | pretty/exporter.go:38-59 | The same transaction over the paths, or stderr, and then the opener functions: on success each handle is from the opener of its path, or a file of that path, and from its opener function |
| Outputs.OpenDefault | pretty/exporter.go:38-59 | With nothing configured exactly the writer of stderr gets one more holder, and an error names stderr |
| Outputs.RollBack | io.go:123-126 | Closing what was opened restores every count, even if closes fail |
| Outputs.OpenThenClose | pretty/exporter.go:38-59 | Opening and closing once restores every count whether or not opening succeeded |
| Durations.EightWideIff | pretty/string.go:113-271 | A rendered duration has at least eight characters, and eight exactly when it is not negative or its whole microseconds within the millisecond are zero |
| Durations.DurationReadsBack | pretty/string.go:113-271 | Reading a rendered duration by its format gives it rounded down to 10ns, 10µs, 100ms, 1min or 1h, for all from 0 up to 10,000 days; longer ones do not read as a duration, negative ones as zero or not at all |
| Durations.RoundedDownMonotone | pretty/string.go:113-271 | Rounding by format keeps order across formats |
| Durations.DurationMonotone | pretty/string.go:113-271 | Rendered durations order as the durations do, and equal texts mean equal rounding |
| Durations.RenderDuration | pretty/string.go:118-271 | Appends exactly that text, padding by padding, for every duration |
| Sizes.ScaledIsQuotient | pretty/string.go:277-281 | The digits are the count in units of the suffix rounded down, and at least 9 once scaled |
| Sizes.ExponentIsLeast | pretty/string.go:277-281 | The suffix is the least that leaves four digits |
| Sizes.Int64Fits | pretty/string.go:277-297 | No int64 needs a suffix beyond the sixth |
| Sizes.SizeReads | pretty/string.go:273-298 | The text reads as a number of bytes, K, M, G, T or P (1024 each time) with the count between it and the next, and the number is at least 9 once scaled |
| Sizes.SizeMonotone | pretty/string.go:274-298 | Suffix and digits are lexicographically monotone in the count |
| Sizes.SizeReadsBack | pretty/string.go:273-298 | The text has five characters and tells the suffix and the digits |
| Sizes.FiveWideIff | pretty/string.go:273-298 | A rendered int64 has at least five characters, and five exactly when it is not negative |
| Sizes.HumanizeBytes | pretty/string.go:274-298 | For every int64 the loop ends and exactly that text is appended |
| Values.RendersShape | pretty/value.go:9-81 | A rendering depends only on the shape of a value: shown elements, elided counts and leaf texts |
| Values.ReadsShape | pretty/value.go:9-81 | A shape is read back from its tokens, whatever follows |
| Values.RenderingReadsBack | pretty/value.go:9-81 | The tokens of a value read back as its shape and leave what follows |
| Values.RenderAlikeIffSameShape | pretty/value.go:9-81 | Two values render alike exactly when their shapes are equal |
| Values.ShapeAccounts | pretty/value.go:9-81 | At every depth shown plus elided is the number of elements of the container, shown ones are its first in order and under their keys, a lone blank in a slice excepted |
| Values.RenderingTellsSizes | pretty/value.go:41-76 | Reading a rendering back tells this of every container in it |
| Values.LoneBlankDisappears | pretty/value.go:41-57 | A slice of one blank value renders like an empty one |
| Values.RenderingBalanced | pretty/value.go:41-76 | Brackets nest by kind, none closes that was not open, and none stays open |
| Values.LeavesBounded | pretty/value.go:41-76 | At most five to the power of the nesting depth leaves are rendered |
| Values.TextsBounded | pretty/value.go:9-81 | The texts written are bounded by the nesting alone |
| Values.CharactersAreAmbiguous | pretty/value.go:19-22 | A text may show as the same characters as a slice |
| Values.BytesReadBack | pretty/value.go:26-40 | The text of a byte string reads back as its first eight bytes, two hexadecimal digits each with the higher one first and dots between, and the number of the rest |
| Values.TokensShow | pretty/value.go:9-81 | The tokens come to the characters that show: brackets, separators, keys with colons, elisions and texts |
| Values.RenderBytes | pretty/value.go:26-40 | The loop yields that text |
| Values.Render | pretty/value.go:9-81 | Writes exactly the tokens of the value |
| Values.RenderItems | pretty/value.go:41-57 | Writes the shown elements, separated, and the number of the rest |
| Values.RenderEntries | pretty/value.go:58-76 | Writes the shown entries, separated, and the number of the rest |
| Kinds.KindBits | pretty/log.go:89-170 | A bit of the kind is set exactly when some attribute key contributes it |
| Kinds.KindTellsKeys | pretty/log.go:89-170 | Said of the keys alone: each bit of the kind is set exactly when one of its keys is there, and two bits never are |
| Kinds.KindIffKeys | pretty/log.go:24-48 | Which keys make which of the nine kinds |
| Kinds.KindReachedIff | pretty/log.go:24-48 | A kind is reached exactly when all its bits are contributed and no other bit is |
| Kinds.KindIgnoresOrder | pretty/log.go:89-170 | Permuting or repeating attributes does not change the kind |
| Kinds.UnrecognisedInOrder | pretty/log.go:165-167 | rest holds each attribute with an unknown key behind exactly those before it, and nothing else |
| Kinds.LastIsLast | pretty/log.go:89-170 | A field holds the value at the last position with one of its keys |
| Kinds.LastReads | pretty/log.go:89-170 | A field is the text or number of that value, and empty or zero for a value of another kind |
| Kinds.LastOfNone | pretty/log.go:89-170 | Without such a position it holds nothing |
| Kinds.BodySizeIsLast | pretty/log.go:116-126 | The size of the body is that of the last attribute that gives one |
| Kinds.BodySizeOfNone | pretty/log.go:116-126 | Without such an attribute there is no size |
| Kinds.GivenSizes | pretty/log.go:116-126 | A body size is given as a number, a content length as text that is parsed |
| Digits.ParseReadsBack | pretty/log.go:116-122 | The text of a number is parsed as that number, unless it is beyond an int64 |
| Digits.ParseTakesDigits | pretty/log.go:116-122 | Only digits behind an optional sign are parsed |
| Kinds.SaysDetermines | pretty/log.go:79-170 | The attributes determine kind, fields and rest |
| Kinds.Visit | pretty/log.go:89-170 | One attribute updates kind, fields and rest so that they say what the attributes so far say |
| Kinds.Classify | pretty/log.go:79-170 | The walk ends with every field at what the last attribute for it says, the kind at the union of the masks, and rest at the unknown attributes in order |
| Lines.HttpMethodAbbr | pretty/string.go:43-70 | An abbreviation has three characters unless the method is shorter |
| Lines.MethodAbbrs | pretty/string.go:43-70 | An abbreviation is the beginning of the method, but for HEAD, POST and TRACE |
| Lines.CodeAbbrs | pretty/string.go:72-111 | The abbreviations in the order of the codes |
| Lines.CodeAbbrTells | pretty/string.go:72-111 | The seventeen codes have different abbreviations and all other numbers share one |
| Lines.RequestUrlSplits | pretty/log.go:329-335 | A URL with scheme, domain and path comes apart into domain and path |
| Lines.UrlWithout | pretty/log.go:327-335 | A URL without a scheme stays whole, and one without a slash has no domain |
| Lines.IndexIsFirst | pretty/log.go:329-332 | A scheme or slash is looked for at its first place |
| Lines.Symbols | pretty/log.go:172-198 | The symbol of every severity |
| Lines.HeaderIsForty | pretty/string.go:12-41 | The header takes forty columns for every title, symbol and id |
| Lines.MethodBarColumn | pretty/log.go:275-389 | The method bar is in column 62 of every HTTP line without an outcome, and of one with an outcome exactly when code, duration and size make up seventeen columns, which for durations and sizes that are not negative means that the status code is absent or has three digits |
| Lines.LongCodeMovesBar | pretty/log.go:357-363 | A four-digit status code moves the bar to column 63 |
| Lines.ServiceColumn | pretty/log.go:391-440 | The service starts in column 68 of ingress and egress, unary or streaming, exactly when the sizes shown are not negative and the duration is not negative or shows as zero |
| Lines.HttpRecordAligned | pretty/log.go:200-247 | From column 62 on a whole HTTP record is the bar, the URL and the status message |
| Lines.GrpcRecordAligned | pretty/log.go:200-247 | From column 68 on a whole gRPC record is the service, the method and the status message |
| Lines.WriteHeader | pretty/string.go:12-41 | Appends title, time, symbol and ids |
| Lines.WriteHttpIngressLine | pretty/log.go:275-291 | Appends peer, bar and URL |
| Lines.WriteHttpEgressLine | pretty/log.go:293-323 | Appends status code, duration, size, bar and URL |
| Lines.CutUrl | pretty/log.go:329-335 | Gives the domain and the path of a URL |
| Lines.WriteHttpReqLine | pretty/log.go:325-349 | Appends domain, bar and path |
| Lines.WriteHttpResLine | pretty/log.go:351-389 | Appends status code, duration, size, bar and path |
| Lines.WriteGrpcIngressLine | pretty/log.go:391-410 | Appends peer, size or dots, service and method |
| Lines.WriteGrpcEgressLine | pretty/log.go:411-440 | Appends code, duration, sizes, service and method |
| Lines.WriteLogLine | pretty/log.go:259-273 | Appends the message and every attribute in order |
| Lines.WriteLine | pretty/log.go:224-239 | Picks the line writer by kind |
| Records.HeaderReads | pretty/string.go:36-40 | Title, time, symbol, the first six digits of both ids and the arrow read back from columns 0 to 42 |
| Records.OutcomeReads | pretty/log.go:293-323 | Behind column 43 of an HTTP outcome the status code reads back, then the duration rounded down, then the size |
| Records.CodeTextReads | pretty/log.go:297-308 | A status code reads back however wide it is |
| Records.FitReads | pretty/log.go:275-281 | A peer or domain is cut or filled with dots to eighteen columns |
| Records.GrpcPeerReads | pretty/log.go:391-410 | Peer and size of a gRPC ingress read back from their columns |
| Records.GrpcUnaryReads | pretty/log.go:411-440 | Code, duration and size of a unary gRPC egress read back from their columns |
| Records.GrpcStreamReads | pretty/log.go:411-440 | Code, duration, request size and response size of a streaming gRPC egress read back from their columns |
| Records.LineShows | pretty/log.go:78-247 | By the keys of its attributes, every line shows its header, the fields of its kind each in its column and in terms of the attributes, and to the end the bar and URL, the service, or the message with the unknown attributes, and the status message |
| Records.ExportRecord | pretty/log.go:78-247 | The line written for a record shows all this |
| Certs.CertReloader.Get | tls.go:32-49 | Answers as the history of calls and loads says |
| Certs.ServesMostRecent | tls.go:32-49 | What is served is always the key pair of the most recent good load |
| Certs.FailsOnlyBeforeFirstGood | tls.go:41-45 | It fails exactly while no load has ever been good, with the error of its own load |
| Certs.NeverFailsAgain | tls.go:32-49 | After one success no later call fails |
| Certs.LoadsIffIntervalPassed | tls.go:36-38 | A call goes to the files exactly when the interval has passed since every good load |
| Certs.FailedReloadRetries | tls.go:40-48 | A failed reload does not postpone the next |
| Certs.Build | tls.go:156-168 | Building succeeds exactly when both files are given, the first load is good and the steps around succeed; the callback starts with a good load |
| MapLists.FirstMatchWins | opaque/maplist.go:38-45 | The first pair with a name is what the map holds |
| MapLists.AssignedIsUpdate | opaque/maplist.go:51-64 | One assignment to the list is one update of the map |
| MapLists.AssignedNames | opaque/maplist.go:51-64 | An assignment keeps the names and their order, a new one comes last |
| MapLists.AssignAllRefinesMap | opaque/maplist.go:47-64 | Any sequence of assignments acts as on a map, keeps the order of names, and keeps distinct names distinct |
| MapLists.MapList.Get | opaque/maplist.go:38-45 | Agrees with the map on presence and value |
| MapLists.MapList.Set | opaque/maplist.go:51-64 | Stores the assigned list in a fresh slice and writes no slice that existed, so shallow copies keep their contents |
| MapLists.Headers | otlp/exporter.go:478-490 | Succeeds exactly on distinct names and then agrees with the map; an error names the first duplicate |

## Left out

- Values.RendersShape: texts stand for characters without escaping, so the round trip is over tokens and not over characters; a map key and its colon are one token.
- Writers.SharedWriter.Write: the mutex makes each call atomic, so calls of different goroutines appear as a sequence in any order and not as interleaved statements.
- Outputs.OutputStore.OpenAll: other holders do not open or close the same shared writers in the middle of the transaction.
- Outputs.RollBack: closing a handle twice is ruled out, since the count would drop below its holders.
- Lines.HttpRecordAligned: columns are counted in bytes for the strings that come with a record, as the original pads and cuts by bytes; a byte is a column of its own only in ASCII strings.
- Records.ExportRecord: behind a status code of one, two or more than three digits, or a duration or size that is negative, the columns shift, and the fields after it are not read back.
- Certs.Build: the branch without reloading and the rest of the TLS mapping are outcomes of steps before and after.
- PrometheusReader.ShutdownProgress: that the due steps are taken in the end is the scheduler's part; draining of connections and the three-second limit on the shutdown of one HTTP server are left out; ListenAndServe may return at any time and is bound to once its server was shut down.
- ResolverObject.Resolver.BuildProvider: a configured value that is nil, an append that writes into the spare capacity of the caller's option slice, and the lazy creation of a nil table are left out; builders are assumed not to call the resolver.
- ResolverObject.Make: the resolver keeps the contents that the configuration has at this point; changes a caller makes to it later are left out.
- ResolverObject.Resolver.Start: components are told apart by the ids of their provider and exporter; one object tracked under two ids counts as two.
- MapLists.MapList.Set: a nil receiver, which panics, is left out.
- MapLists.Headers: a nil map and an empty map are the same.
- Ids.IdVariable.UnmarshalText: the Unicode classes excluded from names are a parameter known only to contain every space; malformed UTF-8 is left out.
- Colours and the hash that picks them: they take no column.
- The text of floating-point values and the calendar formatting of times: taken as given.
- Semantic-convention key strings: each known key is a constructor of its own, told apart by the strings of the original.
- Iteration over a batch of records and the write to the output: one line for each record, independent of the others.
- OTLP client options, dial options and the mapping of samplers, queues and endpoints: each sets one SDK option from one field, and the SDK is outside the model.
- YAML decoding, registries and resource detectors: they hand over to libraries that are outside the model.
- The logger that fans out to several others, the debug exporter and the bare component wrappers: they keep no state of their own; that a component may lack Start or Shutdown is in the model.
