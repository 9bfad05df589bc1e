# Models and proofs for handoff

These Dafny modules model the control algorithms and the report computations of handoff
and prove what they promise. Agents, threads, schedulers, stored data and user input are arbitrary; every
main result is about all inputs, all runs or all reachable states.

`dafny verify dfyconfig.toml` checks the whole project.

| module | models |
|---|---|
| `WorkGroups`, `Schedule` | `buildWorkGroups`: union-find with path compression, its groups as connected components, and the scheduling claim of its comment |
| `Verdicts`, `GateLedger`, `SessionLoop` | the session orchestrator: reading verdicts, routing findings, the gate ledger, the implement/test/review loop, the mode of Spec-Reconcile |
| `RequirementGate` | the draft/check/review loop of the requirement gate, with crashes of workers, checkers and reviewers |
| `Protocol`, `RequestLoop` | the MCP server as interleaved steps of main loop, workers, timeouts and the write mutex |
| `Ranking`, `CorpusCaching` | lexical and hybrid ranking of documents, and the corpus cache with its two staleness counters |
| `Markdown`, `Sections` | the fence-aware Markdown splitter and the section composer |
| `Calendar`, `Periods`, `Rollups`, `Charts`, `Effort` | the Gregorian calendar with ISO weeks, report periods, rows clipped to a period, chart sampling, effort accumulation |
| `Jobs`, `Setup` | the controller of long-running Bash jobs, and installing/removing hooks in the settings file |
| `Sorting`, `JsText`, `RustText`, `Counting`, `Options` | the stable sort the sources rely on, the white space of JavaScript and of Rust, counts of indices, optional values |

Code that works by steps is a method or a class with its loops, proved against a specification function;
the lemmas about that function carry the results. `hide` statements only take definitions away from a proof.

## Where the code and its documentation disagree

The models follow the code. Each point is stated by a lemma.

- `charts.rs:17-19` calls 31 an upper bound on the points of a series. The burndown chart has 32 points
  when the period has more than `30 * step + 1` days, 62 days for example (`Charts.SampleCount`, `Charts.MaxPointsIsExceeded`).
- The documentation of `semantic_only_limit` says the cap keeps the semantic-only candidates with the highest semantic
  bonus. The code keeps the first by combined score. The two are the same for all queries exactly when the lexical floor
  `min_score` is not positive (`Ranking.CapKeepsTopBonusExactly`, `Ranking.CapFollowsCombinedScore`). The one shipped caller
  meets that: `src/mcp/handlers/docs_query.rs:59` sets `DOC_QUERY_MIN_SCORE` to 0.0.
- Without semantic evidence the hybrid ranker is the lexical one if the semantic floor is positive
  (`Ranking.HybridIsConservative`). With a floor of 0 or less it is so exactly when no unmatched document is shown
  (`Ranking.ZeroBonusExactly`, `Ranking.ZeroFloorAdmitsNoise`). The shipped caller passes `DOC_SEMANTIC_MIN_SCORE`, 0.885 (`src/mcp/handlers/docs_query.rs:150`).
- The comment of `buildWorkGroups` says pipelining is strictly faster whenever the slowest developer and the slowest
  tester sit in different groups. With equally slow agents it need not be; the exact condition is that no one group has
  both a slowest developer and a slowest tester (`Schedule.PipelineAgainstBarrier`, `Schedule.TiesGainNothing`).
- A crashed reviewer clears every rework note, so the next round relaunches nobody (`SessionLoop.RetryRelaunches`,
  `SessionLoop.CrashedReviewWastesARound`). A review
  finding that names a task outside the session is dropped as soon as another finding can be attributed
  (`Verdicts.ReviewRouting`, `Verdicts.ReviewDropsAnOutsideFinding`).
- The session loop fails closed only for agent results of the schema's shape: a tester that answers `APPROVE` passes the
  last round without follow-ups (`SessionLoop.FailOpenWithoutSchema`).
- The requirement gate can give up without filing anything: a last REDO by a valid reviewer with no BLOCKER or MAJOR
  finding anywhere (`RequirementGate.SilentFailureExactly`, `RequirementGate.SilentFailureExists`).
- A worker's reply to a line that is not JSON, or to a request it cannot read, carries no `id` member, where section 5 of the
  JSON-RPC 2.0 specification asks for null (`Protocol.SameIdOnBothPaths`,
  `RequestLoop.MissingIdExactly`). The timeout answer to the same line has one.
- The same section asks for the request's own id in an answer. The timeout path reads the id anew, from the untrimmed line and as
  a `Value`, so a readable request keeps its id past a timeout exactly when it is an object, has only JSON's white space around it
  and no member that `Value` cannot hold; otherwise the answer's id is null (`Protocol.TimeoutCarriesIdExactly`,
  `RequestLoop.OutputCarriesId`). `Protocol.TimeoutCanLoseTheId` has a request behind a no-break space, a positional one and one
  with an ignored number out of range.
- A task completed on a day before its creation day is never on the burndown line; with such tasks the line rises and falls by what was
  created and finished only if as many of them were created as finished in between (`Charts.BurndownBalances`).
- The label of an ISO week or quarter parses back only if the year prints with four characters, that of a month or year only
  from 1000 to 9999 (`Periods.WeekRoundTrip`, `Periods.QuarterRoundTrip`, `Periods.MonthLabelParses`, `Periods.YearRoundTrip`).
- Installing and uninstalling does not give back an empty `hooks` object, an empty event array, or a non-array value under an
  event the install touches (`Setup.UninstallRestoresExactly`, `Setup.NotAlwaysRestored`).
- The comment of `strip_legacy_session_start_hook` says other hooks stay. An entry that holds a hook of ours and one of somebody else
  loses both, there and under every event on uninstall. The hooks of others under an event survive exactly when no entry of it
  is mixed like that (`Setup.HooksOfOthersKeptExactly`, `Setup.MixedEntryIsLost`).
- Splitting a composed report finds its sections again exactly when no section that leaves a code fence open is followed by
  another; with an odd number of fence lines that can fail (`Sections.RoundTripExactly`, `Sections.OddFencesCanLose`).
- Cached embeddings can be stale when semantic texts change under unchanged document texts; the callers promise they do
  not (`CorpusCaching.SemanticChangeIsMissed`).

## Model

| member | source | states |
|---|---|---|
| WorkGroups.BuildWorkGroups | plugin-task-loop/workflows/session-execute.js:1562-1618 | the groups returned are exactly the connected components: every index is in one group, two indices share a group iff a chain of shared task ids joins them, groups come in strictly increasing rank |
| WorkGroups.UnionFind.Find | plugin-task-loop/workflows/session-execute.js:1570-1580 | terminates at the root of `x`, points every node on the way straight at it and changes no node's root |
| WorkGroups.UnionFind.Union | plugin-task-loop/workflows/session-execute.js:1581-1587 | adds exactly one edge to the relation the forest stands for |
| WorkGroups.CompressKeepsForest | plugin-task-loop/workflows/session-execute.js:1574-1578 | pointing a node at its root keeps the forest acyclic and every root |
| WorkGroups.UnionLabels | plugin-task-loop/workflows/session-execute.js:1581-1587 | relabelling one class as another is exactly the effect of one new edge on connectedness |
| WorkGroups.ChainKeepsLabel | plugin-task-loop/workflows/session-execute.js:1517-1522 | nodes joined by a chain of edges have the same root |
| WorkGroups.FiledIsExact | plugin-task-loop/workflows/session-execute.js:1602-1608 | filing every index under its root yields exactly the components, none lost or repeated |
| WorkGroups.SortByRank | plugin-task-loop/workflows/session-execute.js:1614-1616 | groups filed in insertion order already are in rank order |
| Schedule.PipelineAgainstBarrier | plugin-task-loop/workflows/session-execute.js:1514-1532 | with a slot for every agent, running the groups as pipelines never takes longer than the barrier, and less exactly when no group has both a slowest developer and a slowest tester |
| Schedule.TiesGainNothing | plugin-task-loop/workflows/session-execute.js:1524-1526 | slowest developer and slowest tester in different groups, and still nothing gained: equally slow agents |
| Schedule.OwnersAreInTheGroup | plugin-task-loop/workflows/session-execute.js:1519-1523 | a tester is in the same group as every owner of a task it verifies |
| Sorting.SortIsTheOnlyStableSort | src/context/injection.rs:78-82 | the sort the rankers call has one possible result: a list is it iff it is sorted and rearranges the input without swapping equal keys |
| Verdicts.UnresolvedIsSilentExactly | plugin-task-loop/workflows/session-execute.js:2781-2829 | a failing stage with a structured result, or none after a crash, files no follow-up only in the cases listed as silent, never for schema-shaped results; string results are outside the model |
| Verdicts.UnresolvedKeepsEveryFinding | plugin-task-loop/workflows/session-execute.js:2781-2829 | a crash becomes one BLOCKER and a failing result without findings one MAJOR with its report, both for all tasks; otherwise every finding is filed with its place, severity, text and task; each names its source |
| Verdicts.ExtractIntegrationReworkNotes | plugin-task-loop/workflows/session-execute.js:2670-2722 | the attribution loops compute the routing whose properties the next rows state |
| Verdicts.ExtractReviewReworkNotes | plugin-task-loop/workflows/session-execute.js:2556-2631 | the same for the reviewer |
| Verdicts.NormalizedExactly | plugin-task-loop/workflows/session-execute.js:2367-2460 | a stage's own verdicts are kept, anything else and a crash are ERROR, and which are affirmative |
| Verdicts.NoteExactly | plugin-task-loop/workflows/session-execute.js:2556-2722 | what each note says: the findings of its task, then those for all tasks, then the tester's strays, in order; all findings or the report when nothing can be attributed; only the crash after a crash |
| Verdicts.IntegrationNotesReachSomebody | plugin-task-loop/workflows/session-execute.js:2670-2722 | notes are empty iff the integration passed or there are no tasks |
| Verdicts.IntegrationRouting | plugin-task-loop/workflows/session-execute.js:2670-2722 | a finding that names a session task goes to that task alone, any other to all tasks |
| Verdicts.IntegrationLosesNothing | plugin-task-loop/workflows/session-execute.js:2670-2722 | every finding of a failing integration result reaches some task |
| Verdicts.ReviewNotesReachSomebody | plugin-task-loop/workflows/session-execute.js:2556-2631 | notes are empty iff the review approved, the reviewer crashed or there are no tasks |
| Verdicts.ReviewRouting | plugin-task-loop/workflows/session-execute.js:2556-2631 | exactly which review findings reach a task |
| Verdicts.ReviewDropsAnOutsideFinding | plugin-task-loop/workflows/session-execute.js:2556-2631 | a concrete review whose second finding is told to nobody |
| Verdicts.FoldKeepsEveryAmbiguity | plugin-task-loop/workflows/session-execute.js:2198-2252 | each contract ambiguity becomes one MAJOR follow-up, for its task if that is the session's, else for all; each impact a warning; writes in an audit are flagged |
| GateLedger.Ledger.Record | plugin-task-loop/workflows/session-execute.js:1383-1406 | appends one entry, or throws for a round that is not positive and records nothing |
| GateLedger.Ledger.Lookup | plugin-task-loop/workflows/session-execute.js:1414-1420 | the last entry of that round and stage, or nothing iff there is none |
| GateLedger.LookupIsUnique | plugin-task-loop/workflows/session-execute.js:1409-1420 | with one entry per round and stage, the entry looked up is the true one |
| GateLedger.Ledger.PreviousRoundVerdict | plugin-task-loop/workflows/session-execute.js:1422-1442 | returns the verdict the next two rows characterise |
| GateLedger.PreviousIsSecondNewest | plugin-task-loop/workflows/session-execute.js:1422-1442 | the previous verdict is that of the entry which exactly one newer entry of its stage follows |
| GateLedger.PreviousNeedsTwoRounds | plugin-task-loop/workflows/session-execute.js:1422-1442 | there is none iff the stage ran in fewer than two rounds |
| GateLedger.ReusableCountsStages | plugin-task-loop/workflows/session-execute.js:1450-1494 | `reusable_greens` counts the stages whose newest verdict is green |
| SessionLoop.RunSession | plugin-task-loop/workflows/session-execute.js:2992-3232 | the whole loop with ledger, then Spec-Reconcile: final state, statistics, mode, follow-ups and audit warning are those of the specified run |
| SessionLoop.PlayRound | plugin-task-loop/workflows/session-execute.js:3004-3183 | one round of the loop body, with the ledger changed in place |
| SessionLoop.LaunchDevelopers | plugin-task-loop/workflows/session-execute.js:3014-3037 | round 1 launches everybody, later rounds the developers with a noted task; other slots keep their report |
| SessionLoop.EveryRunFinishes | plugin-task-loop/workflows/session-execute.js:3004-3183 | every run ends within the round budget; each slot always holds the answer to that developer's last launch; the ledger is true |
| SessionLoop.EndsExactly | plugin-task-loop/workflows/session-execute.js:3004-3183 | a run ends with its first round that is verified or lacks a report, and otherwise after exactly `maxRounds` rounds, or one under Express |
| SessionLoop.EndsWithItsFindings | plugin-task-loop/workflows/session-execute.js:3091-3183 | the follow-ups are the unresolved findings of the stage that stopped the last round, under its name, and none after a verified round; the results kept are the last ones |
| SessionLoop.RoundLedger | plugin-task-loop/workflows/session-execute.js:3091-3159 | a round keeps the ledger true: one entry per stage and round, a review entry only after a green test entry of the same round |
| SessionLoop.FailsExactlyOnMissingReport | plugin-task-loop/workflows/session-execute.js:3028-3053 | the session fails iff it has no developers or in some round one returned nothing or white space only |
| SessionLoop.FailClosed | plugin-task-loop/workflows/session-execute.js:3004-3183 | for schema-shaped results: passed without follow-ups iff every active stage of the last round gave an affirmative verdict |
| SessionLoop.FailOpenWithoutSchema | plugin-task-loop/workflows/session-execute.js:2781-2829 | a concrete result outside the schema with which an unverified session passes |
| SessionLoop.GreensMeanConverged | plugin-task-loop/workflows/session-execute.js:1450-1494 | `reusable_greens` equals the number of gated stages iff the run converged without follow-ups |
| SessionLoop.RetryRelaunches | plugin-task-loop/workflows/session-execute.js:3014-3027 | after a failed round a developer is relaunched, unless what failed was a crashed reviewer |
| SessionLoop.CrashedReviewWastesARound | plugin-task-loop/workflows/session-execute.js:3160-3168 | a concrete run in which the reviewer crashes and round 2 launches nobody |
| SessionLoop.RelaunchesFollowFindings | plugin-task-loop/workflows/session-execute.js:2749-2755 | in every run a later round launches exactly the developers with a task the failing verdict left a note for |
| SessionLoop.ApplyOnlyVerified | plugin-task-loop/workflows/session-execute.js:3185-3198 | Spec-Reconcile gets `apply` iff every active stage verified the final round |
| SessionLoop.ReconcileModeExactly | plugin-task-loop/workflows/session-execute.js:3185-3198 | Spec-Reconcile runs iff the profile is Standard or Full and all developers reported; as an audit iff follow-ups are pending, for schema-shaped results iff the final round was not verified |
| SessionLoop.AuditWritesAreFlagged | plugin-task-loop/workflows/session-execute.js:2243-2247 | in every run, a reconciler that wrote trace updates draws the warning iff it says it audited or, saying nothing, followed a final round that was not verified |
| RequirementGate.RunGate | plugin-task-loop/workflows/requirement-execute.js:487-667 | the gate loop computes the specified run, for which the next rows hold |
| RequirementGate.PlayRound | plugin-task-loop/workflows/requirement-execute.js:500-606 | one round: draft, check and assess in place, then stop, skip or review |
| RequirementGate.ReviewDocuments | plugin-task-loop/workflows/requirement-execute.js:608-666 | the reviewer's phase with the deterministic override and the notes for the next round |
| RequirementGate.DraftScopes | plugin-task-loop/workflows/requirement-execute.js:505-536 | a valid document replaces the draft and drops the stored check; anything else leaves the scope as it was |
| RequirementGate.EveryRunIsGood | plugin-task-loop/workflows/requirement-execute.js:500-667 | every run keeps the history true: stored drafts and checks are real answers in order, and each flag is pending or answered |
| RequirementGate.FlaggedScopesAreRedone | plugin-task-loop/workflows/requirement-execute.js:500-667 | between a review that flags a scope and any later review, its worker succeeded and the check judged is of that newer draft |
| RequirementGate.PassedMeansClean | plugin-task-loop/workflows/requirement-execute.js:617-642 | a passed gate had a PASS about a complete set whose current checks hold no BLOCKER, no MAJOR if the threshold is MAJOR or lower, and so on for MINOR and NIT; a finding of unknown severity never blocks |
| RequirementGate.RoundPassesClean | plugin-task-loop/workflows/requirement-execute.js:578-642 | a round passes iff every scope is drafted, checked and settled, the reviewer says PASS and no check holds a finding of a severity the threshold covers |
| RequirementGate.FlaggedExactly | plugin-task-loop/workflows/requirement-execute.js:644-666 | which scopes a review sends back: those whose check holds a finding of a covered severity, those a valid review names by their document or id, and all when a REDO names none |
| RequirementGate.TargetExactly | plugin-task-loop/workflows/requirement-execute.js:644-650 | a note goes to the last scope with that document, and to the scope with that id only if nobody has such a document |
| RequirementGate.ReworkTells | plugin-task-loop/workflows/requirement-execute.js:644-666 | what a scope that is sent back is told: the reviewer's notes for it and its blocking findings, or that there were none |
| RequirementGate.NotesInOrder | plugin-task-loop/workflows/requirement-execute.js:644-652 | each note comes behind those before it, for the scope it stands for alone |
| RequirementGate.ReworkInOrder | plugin-task-loop/workflows/requirement-execute.js:644-658 | the reviewer's notes come first, the blocking findings behind them |
| RequirementGate.GateVerdictExactly | plugin-task-loop/workflows/requirement-execute.js:614-631 | ERROR for an unusable review, PASS for a PASS that nothing blocks, else REDO |
| RequirementGate.ScopeRoundExactly | plugin-task-loop/workflows/requirement-execute.js:505-576 | what one round does to a scope's draft, check and list of what is missing |
| RequirementGate.SkippedExactly | plugin-task-loop/workflows/requirement-execute.js:578-606 | after a skipped review every unsettled scope is told why, and those without a document or with a failed rework go back to a worker |
| RequirementGate.ElicitExactly | plugin-task-loop/workflows/requirement-execute.js:538-546 | a run that stops after the drafts lists exactly the scopes without a document |
| RequirementGate.SilentFailureExactly | plugin-task-loop/workflows/requirement-execute.js:735-790 | a gate that gives up files nothing iff its last review was valid and no BLOCKER or MAJOR finding is stored |
| RequirementGate.SilentFailureExists | plugin-task-loop/workflows/requirement-execute.js:658-664 | answering agents and a bare REDO in the last round: the gate fails and files nothing |
| Protocol.SameIdOnBothPaths | src/mcp/protocol.rs:4-41 | reply and timeout answer agree on the id exactly for readable requests with a non-null id that the timeout reads as an object; the reply has the request's own id, and none for a line that is not JSON, where the timeout answer has null |
| Protocol.MembersRead | src/mcp/types.rs:4-11 | reading an object member by member fails exactly when a field is repeated or has the wrong type, and otherwise yields the only value of each field |
| Protocol.ObjectRequestExactly | src/mcp/types.rs:4-11 | which objects are requests, and that version, method, id and params are those of their only such members |
| Protocol.ArrayRequestExactly | src/mcp/types.rs:4-11 | which arrays are requests, and with what fields |
| Protocol.TimeoutCarriesIdExactly | src/main.rs:109-116 | the timeout answer to a readable request with a non-null id has that id iff the line is an object with only JSON's white space around it and no member `Value` cannot hold, and null otherwise |
| Protocol.TimeoutCanLoseTheId | src/main.rs:109-116 | three concrete readable requests whose timeout answer has a null id |
| Protocol.RequestIdCarried | src/mcp/protocol.rs:10-24 | a readable request with a non-null id is answered in time with its id unless it is a silent notification, and past the timeout iff the line reads as an object |
| RequestLoop.WritesSerialize | src/main.rs:76-134 | in every interleaving no two write bodies overlap, and the store is what running them one after another in lock order leaves |
| RequestLoop.WritesTakeTheLock | src/mcp/router.rs:254-281 | a finished `tools/call` of version 2.0 with a name that is not on the read-only list took the lock, or its context was refused before |
| RequestLoop.RequestOrder | src/mcp/router.rs:401-406 | locks are taken in request order except past a timeout; without timeouts one worker at a time is live |
| RequestLoop.BlockedExactly | src/mcp/router.rs:258-281 | a worker waits only for the lock while another holds it; a listed tool whose handler takes no lock and a line that calls no tool never wait |
| RequestLoop.NoDeadlock | src/mcp/router.rs:254-281 | while some worker is live, some live worker can move |
| RequestLoop.RunKeeps | src/main.rs:76-134 | the invariant behind these results holds in every reachable state |
| RequestLoop.ResponseDiscipline | src/main.rs:85-133 | at most one output per line, in request order; after a timeout only the timeout's answer, never the late reply |
| RequestLoop.OutcomeExactly | src/mcp/protocol.rs:10-24 | in every run an output says timeout iff the request timed out, else it is its own worker's reply iff the line is a readable request of version 2.0, an invalid version iff it has another, a parse error iff it is no request |
| RequestLoop.EveryOutcomeIsPossible | src/main.rs:76-134 | in every reachable state the machine allows the next line, the end of input, a timeout, a reply, a failing write and a panic, each with the state the code goes to |
| RequestLoop.UnansweredExactly | src/main.rs:97-134 | in every run, also after the end of input, a line the loop is done with, other than one whose answer could not be written, has an answer iff it timed out, or its worker did not panic and the line is no blank one or silent notification |
| RequestLoop.MissingIdExactly | src/main.rs:97-134 | in every run, an answer lacks an id member iff a worker gave it to a line that is no readable request with a non-null id |
| RequestLoop.OutputCarriesId | src/main.rs:85-133 | in every run, an answer in time to a readable request with a non-null id carries that id; a timeout answer does iff the untrimmed line reads as an object, and else has a null id |
| RequestLoop.OutputOnlyGrows | src/main.rs:106-133 | what was written stays written |
| Ranking.RankWithCachedSemantic | src/context/injection.rs:289-370 | the sort, retain and counting passes compute the specified pipeline |
| Ranking.CandidateExactly | src/context/injection.rs:306-343 | who is a candidate: its score is BM25, plus the scope bonus iff one of its scope paths occurs in a file path, plus `weight * (cos + 1) / 2` iff there is a positive cosine; its lexical part is positive and at least the floor, or its semantic part reaches the semantic floor |
| Ranking.ShownScores | src/context/injection.rs:306-369 | the same score and reason for every document shown |
| Ranking.LexicalScores | src/context/injection.rs:56-93 | the lexical ranker lists documents in score order with BM25 plus scope bonus, each positive and at least the floor, and without a relative threshold leaves one out only behind `limit` better ones |
| Ranking.ScopeBonusReorders | src/context/injection.rs:64-72 | a concrete query in which the scope bonus puts the lower BM25 score first |
| Ranking.HybridIsConservative | src/context/injection.rs:289-370 | with every bonus zero and a positive floor the hybrid ranking returns exactly the lexical one, tie order included |
| Ranking.ZeroFloorAdmitsNoise | src/context/injection.rs:326-330 | a concrete query where that fails with floor zero: a document with no score is listed |
| Ranking.ZeroBonusExactly | src/context/injection.rs:326-369 | with every bonus zero and a floor of 0 or less, hybrid and lexical ranking agree iff the cap is 0, the lexical documents fill the limit, or every other document is below the relative threshold |
| Ranking.RetainedIs | src/context/injection.rs:326-354 | before the cap: candidates in score order, exactly those at or above the relative threshold of the top one |
| Ranking.HybridShowsExactly | src/context/injection.rs:356-369 | which candidates are shown and where: fewer than `limit` shown ones and, for semantic-only ones, fewer than the cap precede them |
| Ranking.HybridShape | src/context/injection.rs:289-370 | result in score order, distinct documents, at most `limit` items and at most the cap of semantic-only ones |
| Ranking.LexicalMissingOnlyByLimit | src/context/injection.rs:356-369 | a lexical survivor above the threshold is missing iff `limit` shown items precede it |
| Ranking.CapKeepsTopBonusExactly | src/context/injection.rs:257-268 | with non-negative lexical scores, the cap keeps the highest semantic bonuses for all queries iff the lexical floor is 0 or less |
| Ranking.CapGoesByBonus | src/context/injection.rs:356-366 | with such a floor, every semantic-only candidate the cap keeps has at least the bonus of each it drops |
| Ranking.CapFollowsCombinedScore | src/context/injection.rs:356-366 | for each positive lexical floor, a query whose cap keeps the lower semantic bonus and drops the higher |
| Ranking.InjectsTheBestNew | src/context/injection.rs:97-115 | of a ranked list the session gets the best `limit` items it has not seen |
| CorpusCaching.CorpusCache.GetOrBuildCorpus | src/context/mod.rs:73-84 | after any history the corpus returned is a fresh build of the given texts |
| CorpusCaching.CorpusCache.GetOrBuildCorpusAndEmbeddings | src/context/mod.rs:116-137 | the same, and the embeddings are one vector per semantic text in order (the zero vector where embedding fails) iff the first embedding call of the unbroken run gave such vectors, so always when semantic texts are a function of document texts |
| CorpusCaching.CorpusCache.IncrementGeneration | src/context/mod.rs:60-64 | invalidates what was built |
| CorpusCaching.RebuildsExactly | src/context/mod.rs:73-84 | a call rebuilds unless the operation just before it was a call with the same texts |
| CorpusCaching.CallServes | src/context/mod.rs:73-84 | every call serves the build of its own texts |
| CorpusCaching.EmbeddingsComeFrom | src/context/mod.rs:116-137 | the embeddings held are those of the first embedding call in the final unbroken run of equal calls |
| CorpusCaching.EmbeddingsFreshExactly | src/context/mod.rs:116-137 | after any operations the vectors served fit the call's own texts, index by index, iff those of the first embedding call of the final unbroken run do |
| CorpusCaching.EmbeddingsAreFresh | src/context/mod.rs:103-137 | under the callers' promise the vectors served fit the call's own texts, index by index, after any operations |
| CorpusCaching.FreshAfterChange | src/context/mod.rs:116-137 | without the promise they still do right after an invalidation or with new texts |
| CorpusCaching.SemanticChangeIsMissed | src/context/mod.rs:112-137 | otherwise they can be stale: two calls with equal document texts and different semantic texts |
| Markdown.SplitMarkdown | src/report/sections.rs:210-229 | the scanning loop computes the specified split |
| Markdown.SplitKeepsText | src/report/sections.rs:210-229 | preamble and section texts put together are the input |
| Markdown.SplitStandalone | src/report/sections.rs:210-229 | each piece scanned alone gives just itself; only the last can leave a fence open |
| Markdown.FenceExactly | src/report/sections.rs:205-208 | a fence line is three backticks or three tildes behind any white space |
| Markdown.OpenIffOdd | src/report/sections.rs:205-217 | the scan ends inside a fence iff the number of fence lines is odd |
| Markdown.TrimKeepsShape | src/report/sections.rs:287-290 | cutting trailing white space changes no heading and no fence, unless the text ends in an empty heading |
| Markdown.JoinScansByPart | src/report/sections.rs:314-315 | if no part but the last leaves a fence open, the joined text scans part by part |
| Sections.ComposeReport | src/report/sections.rs:240-318 | the composer's loops over entries, headings and left-over warnings compute the specified report, or the template's error |
| Sections.PickedExactly | src/report/sections.rs:252-294 | the entries put in exactly the sections they ask for, none twice, an earlier entry's before a later one's |
| Sections.ShownExactly | src/report/sections.rs:252-312 | a composed report shows each asked-for section and every Warnings section exactly once |
| Sections.MissedExactly | src/report/sections.rs:275-305 | an entry is warned about iff it asks for no section of the report |
| Sections.CustomGoesLast | src/report/sections.rs:253-273 | a custom entry's text comes behind everything the entries before it show |
| Sections.AsksExactly | src/report/sections.rs:120-134 | which sections each kind of entry asks for: the first with each heading it stands for, for `metrics` the first heading of three that the report has |
| Sections.SameHeadingExactly | src/report/sections.rs:277-281 | headings match up to the case of ASCII letters |
| Sections.CustomTextExactly | src/report/sections.rs:253-273 | what a custom entry's text holds: heading, trimmed body and trimmed template text on lines of their own; it fails iff its template does |
| Sections.RoundTripExactly | src/report/sections.rs:240-318 | scanning the composed report finds exactly the chosen sections, in order, with headings and texts, iff no section that leaves a fence open is followed by another |
| Sections.EvenFencesRoundTrip | src/report/sections.rs:240-318 | with an even number of fence lines it always does |
| Sections.OddFencesCanLose | src/report/sections.rs:210-229 | a concrete report with an odd number whose composition loses a section |
| Sections.ComposeIsIdempotent | src/report/sections.rs:240-318 | composing the composed report with the same entries changes nothing |
| Sections.CustomScansByPart | src/report/sections.rs:253-273 | also with custom entries the composed report scans as its parts, if these close their fences |
| Calendar.YearIs | src/report/period.rs:102-109 | every day lies in exactly one year |
| Calendar.MonthIs | src/report/period.rs:71-83 | every day lies in exactly one month, leap years included |
| Calendar.CivilRoundTrip | src/report/period.rs:71-83 | year, month and day of a date put together give the date |
| Calendar.CivilUnique | src/report/period.rs:71-83 | and no other year, month and day do |
| Calendar.IsoWeekFound | src/report/period.rs:59-68 | a week dated by its Thursday is the week counted from the one with 4 January |
| Calendar.IsoWeekUnique | src/report/period.rs:187-199 | no other year and week number denote it |
| Calendar.LongYears | src/report/period.rs:187-199 | which years have a week 53 |
| Periods.MonthsTile | src/report/period.rs:71-83 | every day is in its month, and all days of a month have that same month |
| Periods.MonthLengthExactly | src/report/period.rs:71-83 | how many days each month has, leap years included |
| Periods.QuartersTile | src/report/period.rs:87-99 | the same for quarters |
| Periods.YearsTile | src/report/period.rs:102-109 | the same for years |
| Periods.WeeksTile | src/report/period.rs:59-68 | the same for ISO weeks, which run from Monday to Sunday, also across New Year |
| Periods.QuarterIsThreeMonths | src/report/period.rs:87-99 | a quarter is its three months, one after the other |
| Periods.YearIsFourQuarters | src/report/period.rs:102-109 | a year is its four quarters, one after the other |
| Periods.QuartersRefineYears | src/report/period.rs:87-109 | every quarter lies inside its year |
| Periods.NextWeekIs | src/report/period.rs:132-139 | the period after an ISO week is the next ISO week |
| Periods.WeekRoundTrip | src/report/period.rs:42-56 | the label of a date's ISO week parses back to that week iff the ISO year prints with four characters |
| Periods.QuarterRoundTrip | src/report/period.rs:143-174 | the same for quarters |
| Periods.YearRoundTrip | src/report/period.rs:176-185 | a year's number parses back to the year iff it is in 1000 to 9999 |
| Periods.SignsAreRead | src/report/period.rs:155-196 | a number may carry a plus sign, a year also a minus sign |
| Periods.RangeExactly | src/report/period.rs:42-56 | a range is read from the dates around its separator iff both read and the first is not after the second |
| Periods.DayExactly | src/report/period.rs:42-56 | a text that reads as a date is that one day |
| Periods.MonthLabelParses | src/report/period.rs:113-120 | the label of a month parses back to the month iff the year is in 1000 to 9999 |
| Periods.ParsedIsOrdered | src/report/period.rs:42-56 | whatever is parsed starts on or before its end |
| Rollups.UnitRows | src/report/rollup.rs:193-220 | the cursor loop terminates and yields the clipped units in order |
| Rollups.RowsPartition | src/report/rollup.rs:193-220 | the rows of any period are consecutive, disjoint and cover it exactly |
| Rollups.CountInIs | src/report/rollup.rs:201-218 | a row counts the completions dated in it |
| Rollups.EntriesInIs | src/report/rollup.rs:201-218 | a row's entries are the log entries dated in it |
| Rollups.HoursAdd | src/report/rollup.rs:201-218 | a row's hours add up over the entries dated in it |
| Rollups.FiguresAddUp | src/report/rollup.rs:201-218 | over any such rows, counts, entries and hours add up to the period's |
| Rollups.TwoLevels | src/report/rollup.rs:155-187 | cutting a period into months is cutting it into quarters and each quarter into months |
| Rollups.QuartersGroupMonths | src/report/rollup.rs:155-187 | month rows and quarter rows both partition the period, group and add up |
| Rollups.QuarterRowIsItsMonths | src/report/rollup.rs:155-187 | each quarter row shows the sums of its own month rows |
| Rollups.WeekRows | src/report/monthly.rs:133-151 | stepping with `next` yields the clipped ISO weeks |
| Rollups.WeeksAddUp | src/report/monthly.rs:133-151 | the clipped ISO weeks partition the period and add up to it |
| Rollups.LastSnapshotIs | src/report/rollup.rs:222-230 | the snapshot of a row is the latest in it, of equal dates the last listed |
| Rollups.SnapshotOfPieces | src/report/rollup.rs:222-230 | the snapshot of a period is that of the last of its rows that has one |
| Charts.SampleDays | src/report/charts.rs:122-131 | the sampling loop computes the specified days |
| Charts.SamplesRun | src/report/charts.rs:122-131 | strictly increasing from the period's first to its last day, evenly but for the last gap |
| Charts.SampleCount | src/report/charts.rs:122-131 | at most 32 points; more than 31 iff the period has more than `30 * step + 1` days; one a day up to 31 days |
| Charts.MaxPointsIsExceeded | src/report/charts.rs:17-19 | 62 days give 32 points |
| Charts.BurndownIs | src/report/charts.rs:106-151 | the chart shows the sampled days, each with the number of tasks created by its end and neither done nor skipped by then, and is missing iff no task can be placed |
| Charts.BurndownBalances | src/report/charts.rs:133-143 | between two points the line rises by what was created and falls by what was finished, tasks finished before their creation left out; with them exactly when as many were created as finished in between |
| Charts.MovesAre | src/report/charts.rs:108-143 | created and finished tasks are counted by their days |
| Charts.Velocity | src/report/charts.rs:156-188 | the weekly loop computes one bar per week of the window |
| Charts.DoneAre | src/report/charts.rs:156-188 | a bar counts the tasks that are done and were completed in its week |
| Charts.VelocityWindow | src/report/charts.rs:160-180 | the window is the weeks the period touches, at least 4 and at most 26, consecutive up to the period's last, and the bars add up |
| Effort.BuildEffort | src/report/effort.rs:139-186 | one pass leaves, for each day, week, task and person that occurs, exactly the hours and entries of its own log entries |
| Effort.AccCounts | src/report/effort.rs:117-126 | a row's entries are the number of log entries with its key |
| Effort.AccAdds | src/report/effort.rs:117-126 | hours and entries of a row add up over the log, each entry giving its own |
| Effort.RowsAddUp | src/report/effort.rs:150-186 | in whatever order a grouping's rows are listed they add up to the total |
| Effort.EveryGroupingAddsUp | src/report/effort.rs:150-186 | days, weeks, tasks and people each account for exactly the total, for any filter and with negative corrections |
| Effort.WeekIsItsDays | src/report/effort.rs:175-179 | a week's row is the sum of its seven days |
| Effort.ListingsAgree | src/report/effort.rs:180-185 | a person is listed with a task iff the task is listed with the person |
| Effort.PersonIs | src/report/effort.rs:139-159 | hours go to the entry's agent, else to the assignee of the last task with its id, else to nobody |
| Effort.PeopleAre | src/report/effort.rs:151-185 | the report lists a person with a task iff some log entry of that task in the period goes to that person and the filter wants them |
| Effort.NothingLost | src/report/effort.rs:150-172 | without filters every log entry is counted or warned about |
| Jobs.JobController.HandleBashEvent | scripts/claude-workflow-job-controller.js:62-122 | starts and finishes jobs; other tools, missing ids, duplicate starts and orphan finishes change nothing |
| Jobs.JobController.EndTimedOut | scripts/claude-workflow-job-controller.js:128-148 | the pass that deletes while it iterates ends exactly the expired jobs, in order |
| Jobs.JobController.BeatDue | scripts/claude-workflow-job-controller.js:153-166 | the heartbeat pass |
| Jobs.JobController.CancelActive | scripts/claude-workflow-job-controller.js:173-190 | cancelling ends an active job once |
| Jobs.RunKeeps | scripts/claude-workflow-job-controller.js:79-189 | in every run the accepted starts of an id are its active plus its finished jobs, and the ends announced are exactly the finished jobs, in order |
| Jobs.JobsTellTheTruth | scripts/claude-workflow-job-controller.js:62-190 | in every run each active job was started by a Bash `tool_started` event with its command and not ended since; each finished one was ended by the first `tool_finished`, timeout check or cancellation that could, and tells its status, its duration and the last 500 characters of its output accordingly |
| Jobs.TimeoutsAreExact | scripts/claude-workflow-job-controller.js:128-148 | after a check no active job with a readable start is past the limit, and no other job changed |
| Jobs.HeartbeatsAreExact | scripts/claude-workflow-job-controller.js:153-166 | exactly one heartbeat goes out for each job that is due and none for any other; with a positive interval none is due after |
| Jobs.EventsExactly | scripts/claude-workflow-job-controller.js:62-126 | which event starts a job, which ends it, and that any other changes nothing |
| Jobs.SummaryAddsUp | scripts/claude-workflow-job-controller.js:211-230 | active, completed, timed-out and cancelled jobs add up to the starts accepted |
| Jobs.SummaryExactly | scripts/claude-workflow-job-controller.js:211-230 | each count is the number of such jobs, the wait is the sum over all, the longest is the first of the longest |
| Jobs.LongestIs | scripts/claude-workflow-job-controller.js:211-230 | the longest job reported waited at least as long as any other and longer than any before it |
| Setup.SettingsFile.RunInstall | src/setup.rs:464-541 | adds our hook where it is missing, strips the legacy one, writes only when something changed, fails on a root or hooks that are no object |
| Setup.SettingsFile.RunUninstall | src/setup.rs:614-657 | removes our hooks under every event and what is left empty, writes only when one was removed |
| Setup.InstalledExactly | src/setup.rs:464-525 | after an install each of the two events ends in our entry with its own text unless one of ours was there, the legacy event holds only entries of others, every other event is unchanged; the file is left alone when nothing was missing |
| Setup.InstallTwice | src/setup.rs:464-525 | installing twice is installing once |
| Setup.UninstallIsComplete | src/setup.rs:614-657 | none of our hooks is left under any event; uninstalling again changes nothing |
| Setup.UninstallRestoresExactly | src/setup.rs:464-657 | uninstalling after installing restores the file iff it had no hooks, or events that are each a non-empty array without ours or a non-array the install does not touch |
| Setup.NotAlwaysRestored | src/setup.rs:614-657 | two concrete files that are not restored |
| Setup.OthersAreKept | src/setup.rs:291-315 | entries that hold no hook of ours are kept, in order, by both operations |
| Setup.HooksOfOthersKeptExactly | src/setup.rs:288-315 | somebody else's hooks under an event are the same after an uninstall iff no entry of the event holds theirs and ours; after an install iff that, or the event is not SessionStart |
| Setup.MixedEntryIsLost | src/setup.rs:627-637 | concrete files whose mixed entry is lost |

## Left out

- Prompt texts, the rendering of notes, logs and telemetry; notes are the findings they render. String verdicts and their regular expressions are not modelled, only structured results and crashes.
- The real agents, `parallel`, clocks and timeouts of the runtimes: results are arbitrary functions of round and role, times are integers.
- RequirementGate: the registration phase and its test-specification follow-ups; argument validation beyond distinct, non-blank scopes.
- SessionLoop: the Spec-Prep and Close stages, which do not influence the loop.
- RequestLoop: a handler that takes the write lock twice, and derived files that read tools write outside the lock; the JSON grammar (a line is its surrounding white space and the members or elements between, already parsed).
- Schedule: fewer slots than agents; the comment's measurements for that case are about durations no formula there covers.
- Ranking: BM25, tokens and embeddings are arbitrary real scores; rounding, NaN and infinities of floating point. The lexical ranker has no loop and is a function.
- CorpusCaching: overflow of the 64-bit counters.
- Sections: wording of warnings (only which entries are warned about), Handlebars rendering (an arbitrary function that may fail), parsing of the `sections` argument (`ComposeIsIdempotent` and the round trip assume what it lets through).
- Calendar: the range limits of chrono's dates; a date's text form `YYYY-MM-DD` is read by an arbitrary function (the round trips of quarters and years use that what it reads has a hyphen and no letter Q), and `Periods.Parse` takes its text already trimmed.
- Rollups: the weekly report behind a row is taken to count and sum what is dated inside the row, before its rounding to two decimals; deltas of the trend are not modelled.
- Charts: the text of the charts; the Gantt chart, the pie and the cumulative series.
- Effort: rounding, shares and variances of the rows; a week is keyed by its ISO year and number instead of their text.
- Jobs: jobs are values, so changes through an object handed out earlier are not modelled; fields that are only copied through.
- Setup: the MCP server entries, the CLAUDE.md section and the prompts; file writing is one atomic step.
- `weekly.rs`, the storage modules, the trace engine and the other reports; research and brainstorm workflows, which have weaker forms of the loops modelled here.
