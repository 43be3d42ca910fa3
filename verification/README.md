# workbuddy2plus, verified in Dafny

This project models the parts of the gateway in which correctness is hardest to see, and
proves what they promise. `dafny verify dfyconfig.toml` checks everything. Nothing was
executed.

| modules | what they model |
|---|---|
| `ModelReadiness`, `ReadinessInvariant`, `ReadinessTheorems`, `ReadinessOutcomes`, `ReadinessAnswers`, `ReadinessProgress` | the model-readiness protocol: generations, single flights, sequence-numbered commits per identity, the process-wide metadata flight and the lock-free reader, as a step machine whose steps are the critical sections; what is published and answered, told by the events of a run |
| `MarkupText`, `MarkupBlock`, `MarkupScan`, `MarkupWritten`, `MarkupRepair`, `MarkupChunks` | the streaming repair of native tool-call markup, its round trip on markup written out as characters, and its per-frame bridge |
| `PoolEntry`, `PoolTransition`, `PoolDimensions`, `PoolBackoff`, `PoolEffects`, `PoolPersist`, `PoolRestart`, `PoolPick`, `AccountPool`, `PoolFairness`, `PoolMachine` | the account pool: the state machine of an account, backoffs, what each event does to health, balance and prices, save and restore, selection, fairness, and the mutable pool |
| `ModelStore` | the two-file cache commit |
| `ToolPairing`, `ToolGroups`, `ToolCleanup`, `ToolRemains` | the three rewrites that keep tool calls and results paired, and what repacking and cleaning do to a list told by the fields of its messages |
| `SseToolCalls` | the fold of streamed tool-call fragments |
| `ModelsDev`, `ModelsDevChoice` | the consensus index over an unordered document, and which value it holds told by the listings |
| `Desensitize` | the rewrite-to-fixpoint loop over configured terms |

How the parts are set up:

- The protocol's `Apply` is a total function on enabled actions. An action names the goroutine
  that moves and everything the environment decides: reconfigurations, outcomes of fetches and
  of file operations. `ReadinessInvariant` gives an inductive invariant together with a rely
  relation between the states before and after a step; `ReadinessTheorems` reads the promises
  off every finite run.
- The markup is a parameter (`MarkupText.Syntax`): its markers, its tag matcher and its size
  cap. `MarkupText.DSML` is the markup of the gateway, and `DsmlIsValid` shows that it meets
  the assumptions. Text is bytes, written as characters below U+0100.
- Map iteration order, shuffles and random draws are nondeterministic choices or parameters;
  clocks are parameters. Weights and prices are reals. Durations are 64-bit integers that wrap.
- Where the source updates objects or runs loops, the model has classes and methods, each
  proved equal to a specification function or relation on values. The theorems are about those.
- What the specifications mean is stated a second time without them: by the events of a run
  (`ReadinessOutcomes`), by characters (`MarkupWritten`,
  `Desensitize.PassOnTerm`), or by the fields of accounts, messages,
  listings and files (`PoolEffects`, `AccountPool.PickIsSound`, `ToolGroups`, `ToolRemains`,
  `ModelsDevChoice`, `ModelStore.LoadOnFiles`).

Findings that the model makes precise:

- The breaker has the documented length min(base * 2^r, cap) exactly when the first doubling
  that reaches the cap does not overflow (`BreakerLength`); 3 * 2^61 nanoseconds is a base for
  which it does (`BreakerLengthWraps`). The soft cooldown has its documented length exactly when
  the shift does not wrap to a positive length below the cap (`SoftLength`); 2^48 + 1 nanoseconds
  is a base for which it does (`SoftLengthWraps`).
- The first rate limit of a series lasts for its base length even if that is above the cap; only
  the later ones are cut (`LimitEnds`). The comment at internal/pool/cooldown.go:191-192 has all
  of them cut; the one at line 242 does not. With a base within the cap the k-th one lasts
  min(base * 2^(k - 1), cap), if sixteen doublings reach the cap within 64 bits (`DocumentedLimit`).
- A degradation lasts for the configured length, cut to its maximum (`FailureEnds`). The comment at
  internal/pool/degrade.go:43-44 also has a minimum of ten minutes; the code has none.
- A restart keeps an account's standing (health for every model, nearest deadline, hard cooldown,
  price and balance) in all later runs exactly when the balance is whole, no price is dropped, no
  block of a model has a hit count and the breaker has nothing to forget (`StandingIsKeptExactly`).
  A closed breaker forgets failures below its threshold and also its earlier trips, so that the next
  trip is as short as the first one (`ForgottenShows`). The hit count of a block is not saved, so
  that the next block is as short as the first one (`UnlearnedShows`). A restart drops expired
  prices, into which the running pool would still smooth the next one (`DroppedShows`).
- A restart forgets when an account was last used, its selection number and its requests in flight.
  Right after it, what selection makes of these is the same exactly when the original has rested,
  has its whole idle bonus, has room and was never numbered (`UseIsForgotten`).
- The comment at internal/pool/cooldown.go:119 lets the block of a model grow when it is hit again
  after it has expired. Every pick deletes expired blocks with their hit counts, so after a pick a
  block grows exactly when an earlier one was still in force (`BlockEscalates`).
- The expiring credit stays part of the credit exactly as long as totals that are set alone can hold
  it and nothing is charged to a negative total (`BalanceStaysWhole`). The comment at
  internal/pool/cooldown.go:14-17 says that SetCredits, which sets a total alone, has no production
  caller; plugin/wb_pool.go:65 is one.
- The order of candidates is total, so the shuffle before the sort in pick does not change what
  is chosen (`RankingIsUnique`), although the comment at internal/pool/pick.go:147-153 counts on it.
- A tool-call fragment without index and id joins the call that was opened last. The comment at
  internal/upstream/sse.go:123-124 says that it joins the call that received a fragment last. The two
  agree exactly when no call was opened after the one of the fragment before (`NamelessJoinsPrevious`);
  without indices, exactly when that fragment is nameless too or its id is the one that came up last
  (`NamelessFollowsIds`). After the ids a, b, a they do not (`NamelessMissesPrevious`).
- The value of an id in the models.dev index depends on the order in which the two nested maps
  are walked exactly when two values of the id tie (`WalksAgreeExactly`, `TieShows`). That no
  provider lists two full ids with the same tail rules ties out (`OneTailNoTie`); one provider with
  two such ids is enough for a tie (`TieExists`).
- Text that is flushed on a finish frame without a delta object is written nowhere. A stream shows
  all its unconverted text exactly when no such frame comes while text is pending (`StreamShows`,
  `EndOfStream`). A held back "<" followed by such a frame is lost (`TextIsLost`).
- Results are moved up to their head only if one of them directly follows it (`AttachedFirst`,
  `DetachedResultStays`).
- A call that finds its fetch overtaken reads the catalog back from disk and calls it fresh. If it
  is published, that catalog was fetched by this process under the same config generation
  (`PublishedSources`); a catalog of an earlier process or an earlier generation never is.

## Model

| member | source | states |
|---|---|---|
| ReadinessInvariant.StepKeepsInvariant | plugin/model_readiness.go:233-642 | every step of every goroutine, a reconfiguration and a withdrawal keep the invariant and change shared state only as the rely relation allows |
| ReadinessInvariant.InitHolds | plugin/model_readiness.go:180-193 | a fresh runtime over any cache directory satisfies the invariant |
| ReadinessInvariant.LostForGood | plugin/model_readiness.go:509-511 | a generation that is not current does not become current in any step |
| ReadinessInvariant.RegisterFresh | plugin/model_readiness.go:278-309 | a generation that registers a call has never fetched |
| ReadinessInvariant.SaveIsNewer | plugin/model_readiness.go:457-486 | a catalog that is saved is newer, in config generation and call sequence, than all saved before |
| ReadinessTheorems.Reachable | plugin/model_readiness.go:233-642 | the invariant holds in every state of every interleaving |
| ReadinessTheorems.PublishesOnlyCurrent | plugin/model_readiness.go:278-309 | a step leaves the published snapshot of a slot or publishes one of the slot's newest generation, while its config is in force |
| ReadinessTheorems.GenerationsGrow | plugin/model_readiness.go:266-282 | config and auth generations never decrease, and a generation keeps its key |
| ReadinessTheorems.PublishedGenerationsGrow | plugin/model_readiness.go:488-507 | the published auth generation never decreases |
| ReadinessTheorems.LostCurrencyStaysLost | plugin/model_readiness.go:509-511 | over whole runs, lost currency of a registered generation is never regained |
| ReadinessTheorems.ReturnsOnlyInForce | plugin/model_readiness.go:629-642 | no bootstrap and no lock-free read returns an executable snapshot of a config generation other than the one in force at its last read, and what it calls fresh was fetched under that generation |
| ReadinessTheorems.OneFetchPerGeneration | plugin/model_readiness.go:290-309 | no two steps of a run start the same kind of fetch for the same auth generation |
| ReadinessTheorems.LoadingHasFlight | plugin/model_readiness.go:284-309 | a visible Loading snapshot has an unfinished registered call of exactly its generation, with a goroutine that works on it |
| ReadinessTheorems.NewerCatalogSurvives | plugin/model_readiness.go:457-486 | successful saves of an identity strictly increase lexicographically, and what is on disk later is never older than any of them |
| ReadinessTheorems.PublishedSources | plugin/model_readiness.go:399-430 | a published Ready or Stale snapshot has both sources; a Ready one was built from fresh sources that had been written to the cache directory; a fresh catalog was fetched by this process under the snapshot's own config generation, and fresh metadata is confirmed |
| ReadinessOutcomes.RunIsTold | plugin/model_readiness.go:311-627 | in every state of every run, what a call holds and what the metadata flights have left is what the events so far tell: its own reads of the disk, fetch and save, and those of the flights |
| ReadinessOutcomes.PublishedOutcome | plugin/model_readiness.go:311-431 | a finished call that kept its generation publishes and returns Ready exactly when its catalog is configured, or fetched and saved, and its metadata confirmed, Stale exactly when both are there otherwise, and Failed exactly when one is missing; sources, stamps and error are those that the call's own fetch, save and disk outcomes tell |
| ReadinessOutcomes.LostOutcome | plugin/model_readiness.go:488-507 | a finished call that lost its generation publishes nothing and returns what is published under the config in force, if anything is |
| ReadinessOutcomes.AloneIsReady | plugin/model_readiness.go:233-431 | a bootstrap of a new generation that runs alone with both fetches successful and saved publishes and returns Ready after nine steps, with the stamp of its own call and its own metadata, and leaves its catalog on disk |
| ReadinessOutcomes.AloneIsReadyConfigured | plugin/model_readiness.go:320-346 | so does one with configured models, without a catalog |
| ReadinessAnswers.RejectedAnswer | plugin/model_readiness.go:243-264 | an invalid credential is answered and published as Failed under a generation of its own, and takes their generation from all calls of the account |
| ReadinessAnswers.WithdrawnAnswer | plugin/model_readiness.go:688-708 | a withdrawal publishes that nothing has been started, and takes their generation from all calls of the account |
| ReadinessAnswers.ValidAnswer | plugin/model_readiness.go:266-309 | a bootstrap returns the result of, waits for, or registers the one call of exactly its own config generation, token and identity |
| ReadinessAnswers.ReaderSeesPublished | plugin/model_readiness.go:629-642 | the lock-free reader returns what was published when it loaded the pointer if that is of the config generation in force then and now, else that nothing has been started |
| ReadinessAnswers.FailureWaits | plugin/model_readiness.go:433-449 | a call whose fetch or save failed waits for exactly the other calls of its identity that are active |
| ReadinessAnswers.ReadsAfterPeers | plugin/model_readiness.go:392-398 | when it reads the disk again, all of them have settled |
| ReadinessTheorems.ConfirmedByFlight | plugin/model_readiness.go:580-627 | metadata is confirmed only after a flight of this run fetched it, as new records, or was told that it is unchanged |
| ReadinessTheorems.WaitsForIsAcyclic | plugin/model_readiness.go:290-295 | the waits-for relation among auth, identity and metadata waiters has no cycle in any reachable state |
| ReadinessTheorems.NoDeadlock | plugin/model_readiness.go:526-554 | while some goroutine has not returned, some goroutine can move |
| ReadinessTheorems.SettledBeforeWaiting | plugin/model_readiness.go:433-455 | a call waits for its peers only after it closed its own channel and left the active set |
| ReadinessTheorems.ClosedExactlyOnce | plugin/model_readiness.go:488-507 | no channel is closed twice, and a goroutine that has returned has closed all of its own |
| ReadinessProgress.OwnStep | plugin/model_readiness.go:233-642 | every step of a goroutine brings it nearer to its return |
| ReadinessProgress.OtherStep | plugin/model_readiness.go:580-642 | another goroutine's step adds work only if it abandons the metadata flight that is waited for or changes the config |
| ReadinessProgress.BoundedSteps | plugin/model_readiness.go:233-642 | in every interleaving a goroutine takes at most 9 steps and 3 more for each reconfiguration and each goroutine, and has returned when it has taken them all |
| MarkupText.DsmlIsValid | internal/upstream/dsml.go:52-73 | the gateway's markers and tag expressions meet what the parser proofs assume of a markup: a match is a prefix that starts with '<'; what is matched is stated by HeaderReads and HeaderIsWritten |
| MarkupWritten.HeaderReads | internal/upstream/dsml.go:64-73 | a tag written out as characters, with any name without a quote and any permitted spacing, is matched with exactly that name, rest and string flag (true, false or absent) |
| MarkupWritten.HeaderIsWritten | internal/upstream/dsml.go:64-73 | whatever is matched is such a tag, written in front of the rest |
| MarkupWritten.BlankIsWhite | internal/upstream/dsml.go:256-258 | blank text is exactly the UTF-8 of white-space characters |
| MarkupWritten.NameRule | internal/upstream/dsml.go:75-78 | the strict test is membership in the declared names, the weak test the shape of an identifier of up to 64 characters |
| MarkupWritten.BlockRoundTrip | internal/upstream/dsml.go:241-345 | a block written out from any calls with admissible names and values, in any permitted spacing, is converted into exactly these calls, names, values and string flags |
| MarkupWritten.FeedRoundTrip | internal/upstream/dsml.go:149-200 | fed between its markers, such a block comes out as its calls, with no text and nothing pending |
| MarkupWritten.UnclosedBlock | internal/upstream/dsml.go:175-186 | a block of the gateway's markup that is not closed is held back up to 256 KiB, and given back as it came beyond |
| MarkupBlock.ItemsSound | internal/upstream/dsml.go:294-333 | what the element parser accepts is blank text and closed elements, and renders back to the input |
| MarkupBlock.ItemsComplete | internal/upstream/dsml.go:294-333 | every well-formed text is accepted with exactly its own elements |
| MarkupBlock.BlockIsExact | internal/upstream/dsml.go:241-286 | a well-formed block is converted exactly when it has an element, every name passes the strict or weak test and every body parses |
| MarkupBlock.BlockHasForm | internal/upstream/dsml.go:241-286 | a converted block is well formed and yields one call per element, in order, with its name and arguments |
| MarkupBlock.ArgumentsAreLast | internal/upstream/dsml.go:294-333 | the arguments have the names of the parameters, each with the value given last |
| MarkupBlock.ParseParams | internal/upstream/dsml.go:294-333 | the loop computes the arguments of the parameter list, or rejects it; on the gateway's markup these are the parameters as written (BlockRoundTrip) |
| MarkupBlock.ParseBlock | internal/upstream/dsml.go:247-286 | the loop computes the calls of the block, or rejects it |
| MarkupScan.FeedsConserve | internal/upstream/dsml.go:144-200 | after any increments, sources of what came out followed by the pending buffer are the input, byte for byte |
| MarkupScan.NothingLost | internal/upstream/dsml.go:144-200 | if no call came out, the emitted text and the flushed rest are the input |
| MarkupScan.FeedsJudged | internal/upstream/dsml.go:187-200 | every block that came out was converted exactly when the block parser accepts it, and the buffer is bounded |
| MarkupScan.ScanBounded | internal/upstream/dsml.go:158-186 | outside a block the buffer is a proper prefix of the opening marker, inside it has no closing marker and stays within the cap |
| MarkupScan.ScanComposes | internal/upstream/dsml.go:149-200 | scanning a text is scanning its front and going on from the state that leaves |
| MarkupScan.ChunkIndependence | internal/upstream/dsml.go:149-200 | increments within the cap give the same pieces and the same buffer as the whole text at once |
| MarkupScan.SplitsAgree | internal/upstream/dsml.go:149-218 | any two ways of cutting a text give the same text and the same calls |
| MarkupScan.CutAnywhere | internal/upstream/dsml.go:175-186 | a text none of whose prefixes leaves an unclosed block over the cap may be cut anywhere |
| MarkupScan.CapDecides | internal/upstream/dsml.go:175-186 | an acceptable block that arrives before its closing marker becomes calls exactly when it is within the cap, while at once it always does |
| MarkupRepair.StartCandidate | internal/upstream/dsml.go:223-240 | the loop finds the first position at which the opening marker stands, whole or cut off |
| MarkupRepair.ScanSkips | internal/upstream/dsml.go:158-173 | text in front of the first candidate passes through |
| MarkupRepair.Repair.Feed | internal/upstream/dsml.go:149-200 | emitted text, calls, counters and new state are those of the specified scan; a disabled repair is the identity |
| MarkupRepair.Repair.Flush | internal/upstream/dsml.go:207-218 | returns the pending text, with the opening marker inside a block, and starts over |
| MarkupRepair.FeedAll | internal/upstream/dsml.go:149-218 | feeding increments and flushing writes the output of the whole text |
| MarkupChunks.StreamShows | internal/upstream/markup_chunks.go:36-110 | for every stream, the converted calls carry indices 0, 1, 2, ... in order, and output content is the unconverted text in order, all of it exactly when no finish frame without a delta object comes while text is pending |
| MarkupChunks.StreamConserves | internal/upstream/markup_chunks.go:36-131 | the pieces of a stream are judged blocks and plain text, and with the buffer they are exactly the content that came in |
| MarkupChunks.EndOfStream | internal/upstream/markup_chunks.go:113-131 | after the final flush nothing stays behind, and all unconverted text has been written exactly when no frame dropped some |
| MarkupChunks.RepairShows | internal/upstream/markup_chunks.go:80-92 | a repaired frame shows all its text exactly when it has a delta object or no finish, or nothing is pending |
| MarkupChunks.TextIsLost | internal/upstream/markup_chunks.go:82-92 | a held back start of the opening marker is lost by a finish frame without a delta object, also at the end of the stream |
| MarkupChunks.FinishComesOut | internal/upstream/markup_chunks.go:82-110 | a finish comes out once, and "stop" as "tool_calls" exactly when some call was converted so far |
| MarkupChunks.OneSynthesizedFinish | internal/upstream/markup_chunks.go:113-131 | errors, [DONE] and the end of the stream synthesize at most one finish between them, none after a finish |
| MarkupChunks.ForeignIsPassed | internal/upstream/markup_chunks.go:50-73 | from the first payload with several choices or with tool calls of the upstream on, it and every later one is passed on as it came, and nothing else is written for the later ones |
| MarkupChunks.Normalizer.NormalizeFrames | internal/upstream/markup_chunks.go:36-110 | frames and new state are those of the specified step, for every payload |
| MarkupChunks.Normalizer.FlushFrames | internal/upstream/markup_chunks.go:113-131 | frames and new state are those of the specified flush |
| MarkupChunks.Normalizer.NumberCalls | internal/upstream/markup_chunks.go:93-98 | one frame per call, numbered on from the next index |
| PoolEntry.PruneIsInvisible | internal/pool/entry.go:287-310 | deleting expired model cooldowns and prices changes no later reading |
| PoolEntry.ExpiryIsNearest | internal/pool/entry.go:315-331 | an account that is not switched off is healthy exactly when no deadline is in force, and the reported one is the nearest |
| PoolDimensions.PausedStaysPaused | internal/pool/transition.go:70-92 | a pause outlasts every run of events in which the operator does not lift it |
| PoolDimensions.DisabledStaysDisabled | internal/pool/state.go:69-82 | a disabled account stays out of selection in every run without a revival |
| PoolDimensions.ThreeStrikes | internal/pool/state.go:34-49 | over a whole run, n session-dead answers leave n mod 3 strikes and disable exactly when n >= 3 |
| PoolDimensions.BreakerIsApart | internal/pool/transition.go:20-27 | in a run without errors and successes nothing touches the breaker |
| PoolDimensions.DegradeIsFixed | internal/pool/degrade.go:20-41 | while a degradation is in force no run of failures moves its end |
| PoolDimensions.ModelsAreApart | internal/pool/cooldown.go:81-109 | the limit of one model survives the limits and blocks of others and successes for as long as it is in force |
| PoolDimensions.Orthogonal | internal/pool/transition.go:20-27 | what a run does to a dimension depends on nothing but the events that touch it |
| PoolDimensions.InterleavingDoesNotMatter | internal/pool/transition.go:20-27 | runs that interleave the dimensions differently but keep the order within each leave the same account |
| PoolBackoff.BreakerLength | internal/pool/cooldown.go:267-284 | every trip lasts min(base * 2^r, cap) exactly when the first doubling that reaches the cap fits in 64 bits |
| PoolBackoff.BreakerLengthWraps | internal/pool/cooldown.go:267-284 | a base for which the doubling does overflow |
| PoolBackoff.SmallCapsFit | internal/pool/cooldown.go:267-284 | caps of up to 2^62 nanoseconds never overflow |
| PoolBackoff.SoftLength | internal/pool/cooldown.go:245-262 | a soft cooldown lasts min(base * 2^k, cap) exactly when the shift does not wrap into (0, cap) |
| PoolBackoff.SoftLengthWraps | internal/pool/cooldown.go:245-262 | a base for which the shift does wrap |
| PoolBackoff.ErrorsAddUp | internal/pool/state.go:135-144 | in any mix of events without a success, n errors take the breaker n failures further |
| PoolBackoff.ErrorsFromFresh | internal/pool/state.go:135-144 | from a fresh state, n errors give n / threshold trips and n mod threshold failures |
| PoolBackoff.TripLength | internal/pool/cooldown.go:267-284 | the error that completes the k-th group opens the breaker for min(base * 2^(k-1), cap) |
| PoolBackoff.BlockLength | internal/pool/cooldown.go:126-157 | the hits-th block of a model lasts min(6 h * 2^(hits - 1), 24 h) |
| PoolBackoff.BlockEscalates | internal/pool/pick.go:44-47 | after a pick, a block of a model is longer than the first one exactly when an earlier one was still in force |
| PoolBackoff.ProbesDoNotExtend | internal/pool/cooldown.go:198-216 | probes inside a soft cooldown in force never move its deadline or its streak |
| PoolEffects.LimitEnds | internal/pool/cooldown.go:198-262 | over whole runs, the k-th rate limit of a series without a reset time that comes outside a soft cooldown ends at its own time + base if k = 1, else + min(base * 2^min(k-1, 16), cap), exactly if the shift does not wrap into (0, cap); until then the account is unhealthy for every model, and afterwards nothing is left of its limits |
| PoolEffects.DocumentedLimit | internal/pool/cooldown.go:241-262 | from an account without a series, with a base within the cap that sixteen doublings bring to the cap in 64 bits, it ends at its own time + min(base * 2^(k-1), cap) |
| PoolEffects.LimitInside | internal/pool/cooldown.go:97-107 | such a limit inside a soft cooldown moves neither its end nor the series, and ends the limits of single models |
| PoolEffects.ResetEnds | internal/pool/cooldown.go:198-230 | with a reset time the account is out for every model until the earlier of it and now + cap, or for one millisecond if it is past |
| PoolEffects.ModelResetEnds | internal/pool/cooldown.go:81-95 | the limit of one model with a reset time takes out that model alone, until the same deadline |
| PoolEffects.BlockEnds | internal/pool/cooldown.go:126-157 | a model that the upstream does not have is out alone for min(6 h * 2^(hits-1), 24 h) |
| PoolEffects.ClearEnds | internal/pool/cooldown.go:163-182 | lifting ends a block, and changes nothing else |
| PoolEffects.FailureEnds | internal/pool/degrade.go:20-60 | over whole runs, the failure that completes a group of threshold takes the account out for the configured length, cut to its maximum, unless a degradation is in force; the others change nothing |
| PoolEffects.SuccessEffect | internal/pool/state.go:246-261 | a success ends breaker and degradation and all counts, while cooldowns and limits of models stay until they end |
| PoolEffects.CheckInEffect | internal/pool/state.go:119-130 | a check-in sets the balance, and with credit ends cooldown and limits of an account that is not disabled |
| PoolEffects.ChargesAddUp | internal/pool/state.go:178-235 | however requests are spread over a run, balance and expiring part pay the sum of the rounded charges, down to zero |
| PoolEffects.PriceConverges | internal/pool/state.go:216-233 | a price that is reported again and again is approached: each report takes the distance to seven tenths of what it was |
| PoolEffects.PruneEffect | internal/pool/entry.go:287-310 | a pick deletes exactly the limits of models that are over and the prices last seen more than six hours ago |
| PoolPersist.AlikeReadsAlike | internal/pool/entry.go:190-331 | accounts that are alike agree on health for every model, nearest deadline, price and hard cooldown at every later time |
| PoolPersist.RestartIsAlike | internal/pool/persist.go:148-242 | a restored account is alike exactly when the expiring credit is part of the credit and no price in force is negative |
| PoolPersist.StepsAlike | internal/pool/state.go:135-261 | events keep accounts alike, errors if the breakers agree, blocks of models if the hit counts do, prices if the last prices of the model do |
| PoolPersist.RestoredIsWrittenAlike | internal/pool/persist.go:148-242 | the restored account is written exactly as the original would be when the balance is whole and no price in force is negative, and only then |
| PoolRestart.RestartKeepsStanding | internal/pool/persist.go:348-438 | in a later run the restored account has the standing of the original if errors come only when the breaker had nothing to forget, blocks of models only when no hit count was lost, and prices on top of expired ones only when the ledger had nothing to drop |
| PoolRestart.ForgottenShows | internal/pool/persist.go:187-192 | the errors that were missing for a trip separate the two accounts whenever the breaker had failures or earlier trips to forget |
| PoolRestart.UnlearnedShows | internal/pool/entry.go:456-458 | the next block of a model separates the two accounts whenever a hit count was lost: between 6 and 12 hours later only the restored one takes requests for the model |
| PoolRestart.DroppedShows | internal/pool/state.go:216-233 | a price observed after a restart becomes the same for both accounts exactly when the last one was not dropped or was the same price |
| PoolRestart.StandingIsKeptExactly | internal/pool/persist.go:148-242 | no later run gives the restored account another standing than the original exactly when the balance is whole, no price is dropped, no hit count is lost and the breaker has nothing to forget |
| PoolRestart.UseIsForgotten | internal/pool/persist.go:148-242 | right after a restart, rest, weight, room and number are the same exactly when the original has rested, has its whole idle bonus, has room and was never numbered |
| PoolPersist.BalanceStaysWhole | internal/pool/cooldown.go:18-43 | the expiring credit stays part of the credit throughout a run exactly when every total that is set alone can hold it and nothing is charged to a negative total |
| PoolPersist.CheckInBreaksBalance | internal/pool/state.go:119-130 | after a check-in the balance is whole exactly when the expiring part is not above the new total |
| PoolPersist.PricesStayPositive | internal/pool/state.go:178-235 | observed prices never become negative |
| PoolPersist.Overview | internal/pool/persist.go:348-438 | the loop saves every account |
| PoolPersist.ApplyAccounts | internal/pool/persist.go:148-242 | the loop restores every saved account and leaves the others |
| PoolPick.RankingIsUnique | internal/pool/pick.go:154-177 | the sorted order does not depend on the order before the sort |
| PoolPick.Rank | internal/pool/pick.go:167-177 | the sort returns the same candidates in strict order: cheaper, heavier, by name |
| PoolPick.PickWeighted | internal/pool/pick.go:319-350 | the drawn number falls into the share of the chosen candidate, and every share is at least one |
| PoolPick.LeastUsed | internal/pool/pick.go:206-211 | the first of the candidates with the least selection number |
| PoolPick.Choose | internal/pool/pick.go:194-214 | a rested account of the shortlist while there is one, the one whose share of their weights holds the drawn number, else the one of the whole tier chosen longest ago |
| AccountPool.CompetitorsExist | internal/pool/pick.go:96-146 | the effective tier is never empty when there is a candidate, and it is the best tier of all unless an exploration passes over the free one for the unknown one |
| AccountPool.WeightRange | internal/pool/pick.go:355-392 | a weight lies between 1 and 19 plus the idle bonus, and an unused account with the largest balance, all of it expiring, has the most |
| AccountPool.IdleWeighsMore | internal/pool/pick.go:374-387 | of two accounts with the same balance the one idle for longer weighs no less, whatever the clock reads |
| AccountPool.PickIsSound | internal/pool/pick.go:38-281 | on the fields: the chosen account is not tried, of the realm that is asked for, below the applicable limit on requests in flight when that is positive, switched on and not in a hard cooldown; there is none exactly when no such account is healthy for the model or waits for a deadline; a healthy one comes before a waiting one, of it one seen to be free, not seen, or charged as the tiers and a due exploration have it; a waiting one has the nearest deadline |
| AccountPool.WinnerOnFields | internal/pool/pick.go:167-214 | the winner has rested and fewer than five competitors are cheaper, or as cheap and heavier, or before it by name; or all that go before have not rested, and of all competitors it was chosen longest ago |
| AccountPool.CreditIsProportional | internal/pool/pick.go:355-373 | credit weighs ten points in proportion to the largest balance, expiring credit eight points in proportion to the balance |
| AccountPool.IdleHours | internal/pool/pick.go:374-392 | an account idle for some whole hours weighs their bonus, up to the limit, more than one just used |
| AccountPool.PrunedChoice | internal/pool/pick.go:44-47 | choosing after pruning is choosing before it |
| AccountPool.PickSequenced | internal/pool/pick.go:222-225 | selection numbers stay distinct and below the next one |
| AccountPool.MarkSequenced | internal/pool/state.go:345-350 | so they do on the sticky and the fallback path |
| PoolFairness.EveryoneInBetween | internal/pool/pick.go:194-225 | whatever else happens to the pool, an account selected on any path less than the gap ago wins again only when every competitor has been selected in between |
| PoolFairness.PickAdvances | internal/pool/pick.go:38-270 | a pick for any model, on any path, advances the use of the account it selects and keeps that of the others |
| PoolFairness.TurnsInBetween | internal/pool/pick.go:194-225 | in a burst shorter than the gap, between two turns of an account every competitor has had one |
| PoolFairness.NoRepeat | internal/pool/pick.go:194-225 | no account is chosen twice within as many turns as there are competitors |
| PoolFairness.RoundRobin | internal/pool/pick.go:194-225 | the burst is an exact round robin |
| PoolFairness.ExplorationsAreRare | internal/pool/pick.go:125-139 | among picks, sticky selections and account events in any order, a (realm, model) key explores at most T / interval + 1 times in a time T |
| PoolMachine.Collect | internal/pool/pick.go:53-65 | the loop finds exactly the candidates |
| PoolMachine.ChooseTier | internal/pool/pick.go:96-139 | the loops compute the effective tier and whether it explores |
| PoolMachine.RankTier | internal/pool/pick.go:77-177 | the loops produce the ranking of the effective tier, weighted against the largest balance of all candidates |
| PoolMachine.NearestExpiry | internal/pool/pick.go:232-270 | the loop finds the account of last resort with the nearest deadline |
| PoolMachine.Accounts.Pick | internal/pool/pick.go:38-226 | the whole outcome of a pick: who is chosen (on the fields: PickIsSound, WinnerOnFields) and what the pool becomes |
| PoolMachine.Accounts.PickByUIDForModel | internal/pool/state.go:331-351 | succeeds exactly for an account without a deadline in force for it or the model, switched on and below its limit on requests in flight, and numbers it |
| PoolMachine.Accounts.NoteError | internal/pool/state.go:135-144 | the account after an error: one failure more, or a trip of the specified length |
| PoolMachine.Accounts.BreakerDuration | internal/pool/cooldown.go:272-279 | the loop computes the specified length |
| PoolMachine.Accounts.CooldownSoftRate | internal/pool/cooldown.go:198-216 | the account's cooldown after a rate limit; its deadline is that of LimitEnds, LimitInside and ResetEnds |
| PoolMachine.Accounts.CooldownSoftForModel | internal/pool/cooldown.go:81-109 | the model's or the account's cooldown after a limit; its deadline is that of LimitEnds, LimitInside and ModelResetEnds |
| PoolMachine.Accounts.BlockModelBackoff | internal/pool/cooldown.go:126-157 | the model's block after the upstream did not have it |
| PoolMachine.Accounts.BlockModelClear | internal/pool/cooldown.go:163-181 | only a block is lifted, not a limit |
| PoolMachine.Accounts.NoteFailures | internal/pool/degrade.go:20-41 | the account's degradation after a failure |
| PoolMachine.Accounts.NoteSessionDead | internal/pool/state.go:34-49 | the third answer in a row disables the account |
| PoolMachine.Accounts.NoteModelCost | internal/pool/state.go:178-235 | balance and price after a finished request |
| PoolMachine.Accounts.NoteSuccess | internal/pool/state.go:246-261 | all failure counters and deadlines but the cooldown are cleared |
| PoolMachine.DrawAllowed | plugin/wb_pool.go:95-110 | draws at times that do not go back find an allowed account, or at the last draw none can be chosen; the budget never runs out |
| PoolMachine.PickFromPool | plugin/wb_pool.go:80-111 | the result is an offered account that could be chosen when it was drawn, and there is none only if at some draw no such account could be |
| ModelStore.CrashSafe | plugin/model_store.go:266-314 | after any prefix of the file steps, loading finds the old or the new value |
| ModelStore.FutureIsKept | plugin/model_store.go:286-298 | a file of a newer schema makes the write change neither file |
| ModelStore.Completed | plugin/model_store.go:300-313 | a write that ends leaves its value, and the one before as the backup |
| ModelStore.WindowsGaps | plugin/model_store.go:360-367 | on Windows the files pass through one moment without a backup, while the old primary is there, and one without a primary, while it is the backup |
| ModelStore.OtherwiseNoGaps | plugin/model_store.go:300-313 | elsewhere each file is the old or the new one at every moment |
| ModelStore.NeverLost | plugin/model_store.go:142-169 | over runs of interrupted writes, something stays loadable: what was, or a value attempted since |
| ModelStore.NeverOlder | plugin/model_store.go:266-314 | after a write that ended, nothing older is loaded again |
| ModelStore.LoadOnFiles | plugin/model_store.go:142-169 | the primary file answers unless it is absent, unreadable or invalid, whatever the backup holds; then the backup does; missing exactly when there is neither |
| ModelStore.NewerSchemaStays | plugin/model_store.go:142-169 | once the primary is of a newer schema, no later run of writes lets anything older be loaded, not even the backup |
| ModelStore.Store.LoadCache | plugin/model_store.go:142-169 | the loop over the two files computes the specified result |
| ModelStore.Store.Write | plugin/model_store.go:266-367 | the file steps of a write, cut off anywhere, are that prefix of the plan |
| ToolPairing.MergeKeeps | internal/upstream/tool_pairing.go:250-307 | merging keeps the flattened sequence of calls, the sequence of texts and the joined reasoning |
| ToolPairing.MergeIsIdempotent | internal/upstream/tool_pairing.go:250-307 | a list is left alone exactly when no two neighbours can be merged; merging twice is merging once |
| ToolGroups.MergesExactly | internal/upstream/tool_pairing.go:250-307 | a list is changed exactly when a message declares more calls of the declaration before it without a text of its own, or is nothing but its text |
| ToolGroups.NeighboursMerge | internal/upstream/tool_pairing.go:250-319 | two such neighbours become one message, with the calls of both, the text of the one that has any, and both reasonings on lines of their own |
| ToolPairing.MergeAdjacentToolCalls | internal/upstream/tool_pairing.go:250-307 | the loop computes the merge and reports exactly whether anything changed |
| ToolPairing.RepackKeepsOrder | internal/upstream/tool_pairing.go:35-110 | no result passes another, and no other message passes another |
| ToolPairing.RepackIsPermutation | internal/upstream/tool_pairing.go:35-110 | repacking is a permutation |
| ToolPairing.RepackPacks | internal/upstream/tool_pairing.go:63-104 | afterwards the results of every group directly follow their head; which they are is stated by ResultsFollow |
| ToolGroups.GroupIsReached | internal/upstream/tool_pairing.go:55-102 | the group of a head is what is reached from it on the fields: its first result directly behind it, and no foreign result, non-object or other head in between |
| ToolGroups.ResultsFollow | internal/upstream/tool_pairing.go:55-104 | every result that answers some call of a head and is reached from it stands, after repacking, behind the head with only results of that head's calls between them, as many as before |
| ToolGroups.ChangesExactly | internal/upstream/tool_pairing.go:35-110 | a list is changed exactly when something that is no result stands in front of a result that is reached from a head |
| ToolGroups.ParallelResults | internal/upstream/tool_pairing.go:21-34 | the notice between two parallel results moves behind both |
| ToolPairing.RepackKeepsGroups | internal/upstream/tool_pairing.go:63-104 | repacking keeps every group with its results and fillers, and the groups in order |
| ToolPairing.ZoneContent | internal/upstream/tool_pairing.go:69-102 | a group holds wanted results and fillers, and ends at a foreign result, a non-object or the next head |
| ToolPairing.RepackIsIdempotent | internal/upstream/tool_pairing.go:35-110 | a list is left alone exactly when it is packed; repacking twice is repacking once |
| ToolPairing.DetachedResultStays | internal/upstream/tool_pairing.go:87-89 | if no result of a head directly follows it, nothing behind the head is moved up to it |
| ToolPairing.AttachedFirst | internal/upstream/tool_pairing.go:69-102 | a head's group has members exactly when one of its results directly follows it |
| ToolPairing.Gather | internal/upstream/tool_pairing.go:66-102 | the inner loop computes the group of a head |
| ToolPairing.RepackToolResultBlocks | internal/upstream/tool_pairing.go:35-110 | the loops compute the repacked list (on the fields: ResultsFollow, ChangesExactly), and report a change exactly when the list changed |
| ToolCleanup.CleanPairs | internal/upstream/tool_pairing.go:123-235 | afterwards call ids and result ids are the same set, the paired ones, and no call lacks a name |
| ToolCleanup.CleanIsIdempotent | internal/upstream/tool_pairing.go:123-235 | cleaning twice is cleaning once |
| ToolCleanup.CleanLeavesWhole | internal/upstream/tool_pairing.go:123-235 | a list is left alone exactly when it has no ids at all or every call and result is paired |
| ToolRemains.CleanLeavesBothSides | internal/upstream/tool_pairing.go:123-235 | on fields and positions: a list with ids keeps, in order, every message but the results whose id lacks a side, and of its calls exactly those whose id has a result and no nameless call; a list without ids is left alone |
| ToolRemains.BothSidesStay | internal/upstream/tool_pairing.go:155-195 | a call and a result whose id has both sides are both still there |
| ToolCleanup.CleanupOrphanToolCalls | internal/upstream/tool_pairing.go:123-235 | the loops compute the cleaned list and report exactly whether anything changed |
| SseToolCalls.ArgumentsAddUp | internal/upstream/sse.go:138-171 | in every stream, a call's arguments are those of its fragments in order |
| SseToolCalls.IdentityIsLast | internal/upstream/sse.go:357-383 | in every stream, a call's id, type and name are the last ones that its fragments carry |
| SseToolCalls.IndexedAddUp | internal/upstream/sse.go:144-145 | with indices, call k holds the fragments with index k in order, and the calls are the indices |
| SseToolCalls.IdsHaveOwnSlots | internal/upstream/sse.go:146-151 | without indices, two fragments with ids share a slot exactly when the ids are equal |
| SseToolCalls.NamelessJoinLast | internal/upstream/sse.go:152-156 | without indices, a fragment without id goes to the slot opened last |
| SseToolCalls.NamelessJoinsPrevious | internal/upstream/sse.go:117-125 | in every stream, a fragment without index and id joins the call of the fragment before it exactly when no call was opened after that one |
| SseToolCalls.NamelessFollowsIds | internal/upstream/sse.go:146-156 | without indices, it does so exactly when the fragment before is nameless too or its id is the one that came up last |
| SseToolCalls.NamelessMissesPrevious | internal/upstream/sse.go:152-156 | after the ids a, b, a a nameless fragment does not join a |
| SseToolCalls.ReadersAgree | internal/upstream/sse.go:400-433 | after stripping, adding and overwriting readers build the same name, that of the first fragment |
| SseToolCalls.NamesComeOnce | internal/upstream/sse.go:400-433 | stripping touches only names, and only behind the first fragment of an index |
| SseToolCalls.StripsRepeated | internal/upstream/sse.go:400-433 | a fragment loses its name exactly if an earlier one has the same index, where a missing one is 0, and nothing else changes |
| SseToolCalls.StripFrames | internal/upstream/sse.go:400-433 | stripping frame by frame is stripping the whole stream |
| SseToolCalls.Aggregator.NextToolIndex | internal/upstream/sse.go:128-136 | the loop finds the next free slot |
| SseToolCalls.Aggregator.MergeToolCallsChunk | internal/upstream/sse.go:137-171 | the loop folds the fragments of a frame into the slots |
| SseToolCalls.StripToolCallNames | internal/upstream/sse.go:400-433 | the loop strips the names of a frame and remembers its indices |
| ModelsDev.VotesPermute | internal/upstream/modelsdev.go:314-326 | votes do not depend on the order |
| ModelsDev.OrderDoesNotMatter | internal/upstream/modelsdev.go:269-359 | without a tie the index does not depend on the order of iteration |
| ModelsDev.OneTailNoTie | internal/upstream/modelsdev.go:269-359 | if no provider lists two full ids with the same tail, there is no tie |
| ModelsDev.TieShows | internal/upstream/modelsdev.go:340-356 | with a tie, two walks over the nested maps of the same document give different values for the id |
| ModelsDev.WalksAgreeExactly | internal/upstream/modelsdev.go:269-359 | the value of an id does not depend on the walk exactly when the id has no tie |
| ModelsDev.TieExists | internal/upstream/modelsdev.go:291-301 | a document of one provider that has a tie |
| ModelsDev.BestOf | internal/upstream/modelsdev.go:340-355 | the loop finds the first candidate that none beats |
| ModelsDev.AddCandidate | internal/upstream/modelsdev.go:311-335 | the loop keeps one candidate per value, with its votes, official flag and least provider |
| ModelsDev.ParseModelsDevDoc | internal/upstream/modelsdev.go:269-359 | the nested loops and the second pass give, for each listed id, the first value that none beats |
| ModelsDevChoice.ChoiceOnListings | internal/upstream/modelsdev.go:340-355 | the index holds exactly the value that is preferred to every other: vouched for by an official vendor, then listed more often, then by the lesser provider, then earlier |
| ModelsDevChoice.IndexedIsListed | internal/upstream/modelsdev.go:288-310 | an id is in the index exactly when some full id ends in it behind its last '/' with a value in range |
| Desensitize.PassSplits | plugin/desensitize.go:365-374 | a pass that changes something leaves fewer adjacent pairs without a separator |
| Desensitize.ReplaceErases | plugin/desensitize.go:361-377 | erasing separators from result and input gives the same text |
| Desensitize.ReplaceInserts | plugin/desensitize.go:361-377 | the result is the text with zero-width spaces put in; nothing is removed, reordered or otherwise added |
| Desensitize.PassOnTerm | plugin/desensitize.go:361-377 | rune by rune: a pass leaves everything in front of the first and longest term, puts one zero-width space behind its first rune, and goes on behind it |
| Desensitize.ContainsOnRunes | plugin/desensitize.go:194-225 | a text contains a term when it stands somewhere in it, rune by rune and up to case |
| Desensitize.NoTermIsLeft | plugin/desensitize.go:194-225 | the result contains no configured term up to case, including terms dropped as duplicates |
| Desensitize.CleanTextStays | plugin/desensitize.go:361-377 | a text is returned as it is exactly when it contains no alternative |
| Desensitize.ReplaceTerms | plugin/desensitize.go:361-377 | the loop ends on every input and computes the fixpoint |
| Desensitize.NormalizeTerms | plugin/desensitize.go:162-192 | the loop trims and removes duplicates, and rejects exactly short terms and terms with a separator |
| Desensitize.CompileMatcher | plugin/desensitize.go:194-225 | longest first, no two alternatives fold alike, every term is represented |
| Desensitize.DesensitizeText | plugin/desensitize.go:162-377 | from the configuration to the text: nothing configured is left, and nothing but separators is added |

## Left out

- The 64-bit wrap-around of generation, sequence and selection counters.
- The contents of snapshots, catalogs and metadata records; the model keeps which fetch they came from and whether they were written.
- Separate locks inside one critical section: each section is one atomic step, reads of the cache directory are steps of their own.
- Directory entries that a file system reorders after power loss: a crash leaves a prefix of the file steps.
- Partly written temporary files, which are never loaded.
- Decoding and validation of cache files: a decoder is a parameter with the verdicts valid, newer schema and invalid.
- The JSON text of tool-call arguments: a parameter keeps its raw text and whether it is a string.
- RepairAggregatedResponse and ToolNameAllowlist, which only call the repair and collect names.
- The created and model fields of synthesized frames, and the final whitelist of frame fields in normalizeFrame.
- The transport framing of server-sent events, the non-streamed message fields of Aggregate, usage totals and the dropping of truncated calls at the end of a stream.
- Messages and fragments are values; that merge, cleanup and strip edit maps that the caller shares is not modelled.
- Role, content and call elements of a message are classified, not JSON values.
- The pool's display fields (success and error totals, last error and success times, reasons), dirty marks, logging and the file format of the state file, including the precision of its timestamps.
- Acquire, Release, SyncToDir, the replacement of credentials and the status queries, which would only add easy members; the configuration is the same throughout a run and across a restart.
- The reason texts of limits: whether a limit is a block by 11102 is a flag, as the callers in plugin/wb_pool.go set it.
- Floating-point rounding of weights and prices.
- Exploration keys are pairs of realm and model, not strings joined by a separator.
- MarkupScan.ChunkIndependence: requires that no increment but the last leaves an unclosed block over the cap; CapDecides shows what the cap decides.
- The bounded negative cache of the models.dev lookup.
- Which message fields are desensitized, and the white-space trimming of terms, which is a parameter.
- HTTP clients, OAuth, panel pages and scheduling.
