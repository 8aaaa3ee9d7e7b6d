# Stethoscope, verified

Stethoscope is a time-travel debugger for agents: an SDK exports each run of an
agent as spans, a server ingests them into a trace store, the workbench walks
and compares the span trees, and a recorded run can be *branched*: replayed
against its pinned responses with one tool response changed. This project is a
Dafny model of the logic that makes those features trustworthy, with proofs.

What is modelled, and the main results:

* **Replay.** An agent is any function from the responses it has had so far,
  answers or failures, to the spans it ends and the call it makes next; a span ends
  with a status and attributes of the agent's choice, so an exception may pass
  through any of them. `Replay` builds the manifest from the store as the engine does;
  `Recording` says what spans a run leaves; `RecordingKept.BranchRound` follows a
  run through delivery, manifest, replay, second delivery and diff, each delivery
  being any number of requests in any order, some perhaps cut short or repeated:
  the diff is empty *exactly when* the recording is repeatable (every call with a
  record is recorded as it was answered, the edited response is the recorded one,
  and calls without a record turn out the same). Otherwise it points at the first
  of the spans around the first call that was answered differently which ends
  differently, and at that call itself exactly when all of them end alike. (One
  case stands apart: the call failed in both runs, with different errors, which its
  span does not show; see below.)
* **The store lock.** Any number of branches, exports and readers, as a state
  machine: mutual exclusion, no branch holds the lock while its subprocess runs,
  some step is always possible without killing a subprocess or giving up an export,
  and every run ends. In the design the code warns of, keeping the lock across the
  subprocess, no export of a branch is ingested before the branch is over, and it
  stays stuck until it is killed or its exporter gives up.
* **The breakpoint language.** The parser accepts exactly what the stated grammar
  derives, once its seven operators are all that occur, and the grammar is
  unambiguous; print/parse round trip, and an exact account of where the Rust,
  Python and TypeScript copies differ from it and from each other.
* **Trace diff.** The table is the longest-common-subsequence length, the greedy
  traceback is optimal and lossless, and the first divergence is the length of
  the longest common prefix. The same for the word diff.
* **The span forest.** Preorder over any list of spans with distinct ids,
  orphans and parent cycles included: what it visits, in which order, when it is
  a permutation; the navigation commands and the row list agree with it, and the
  depth column alone, or the prefix column alone, gives the tree back.
* **Capture and ingestion.** What the SDK is told about a call is what the store
  holds of it. Loops proved against the list of writes they make: no orphan
  row after any single write, aborted batches included; ingesting twice changes
  nothing but messages and hit counters; counters grow by exactly the matching
  spans; trace totals agree with a recomputation from the stored spans.
* **The cloud store.** Shared tables keyed by tenant, and long payloads in object
  storage, look to each tenant like its own private store after any interleaving.
* **What the basic terms mean.** When a comparison holds, which kind a span has,
  what its columns hold, which message is the last, which payload is moved out and
  which attributes a diff looks at are each said once more in terms of the input
  alone, since code and specification share these definitions (`Meaning`,
  `Columns`, `Labels`, `Fallback`, `PayloadSizes`, `Diff.AgreeExactly`).
* **Identifiers.** Base-32 encoding and decoding are inverse and keep order, so
  ids sort by time.

Findings, each with an exact condition proved:

* A breakpoint that compares a duration, a token count or the cost with `true` or
  `false` means something else in Python than in the other two copies, although
  the crate asks that all three agree. The exceptions are `contains` and
  `duration_ms < false`; on every other field boolean literals do no harm
  (`BoolLiterals.BoolLiteralsDisagree`).
* Rust and TypeScript accept a comparison by a lone `=` or `!`, which is outside the
  stated grammar and never holds; Python rejects it (`Dialects.OutsideTheGrammar`,
  `Dialects.AcceptanceCompared`, with such sources in `Dialects.LoneOpsAccepted`).
* The diff of a replay need not point at the call whose response was edited: a span
  around it that an exception leaves in one run only comes first. If the exception
  leaves the agent, that is the root (`ReplayLaws.RootFailureFirst`, with such an
  agent in `Raised.DiffPointsAtRoot`).
* A call that raised is not recorded in the manifest, so a replay makes it again; if
  it fails again with another error, its span looks the same and the diff may be
  empty although the runs differ (`Recording.FailuresLookAlike`).
* The trace row of a run that arrives in several requests is overwritten by each of
  them. It is right exactly if the last one brings the root span and, if any span was
  left with an error, one that was (`RunLabels.StoredRunRow`); if the root arrives
  last and alone, the run is stored as failed exactly if the root itself was left
  with an error (`RunLabels.SplitRunForgets`).
* A span whose name does not tell of its tool is matched differently by the
  browser's continue and by ingestion, under some predicate (`Continue.SameContext`,
  `Continue.OtherwiseTheyPart`).
* Two requests of one cloud tenant can store a project name twice, since looking up
  and adding are two statements under a lock that is not shared
  (`ProjectRace.TwoRequestsStoreTwice`, exact in `ProjectRace.UniqueIffNotOvertaken`).
* The browser's diff joins kind and name with a space, which mixes up two kinds
  when one followed by a space begins the other (`Diff.JoinedKeyCollides`). The
  kinds of the capture API never do (`Nesting.BothDiffsAgree`).
* A short cached response that starts with `s3://` is read back as a reference;
  this is the only case in which a cached response is not returned as written
  (`Cloud.CachedReads`), and the only reason an export through the wrapper
  differs from the private store's (`CloudStore.S3OffloadStore.ExportTrace`).
* The cloud tables take spans without a start and cache rows without a model,
  which the embedded store rejects (`Cloud.RejectedWriteShows`).

One module per part, in a file of the same name; `Spans`, `Sums` and `Lcs` are
shared. `dafny verify dfyconfig.toml` checks everything.

Conventions. Ids and times are natural numbers (fixed-width hex sorts as its
number; a missing start sorts first, as the empty string does in the tree view).
Columns are `Option`s. `hide` statements only keep definitions out of a proof
that does not need them.

## Model

| member | source | states |
|---|---|---|
| Lcs.FillRow | crates/diff/src/lib.rs:66-73 | The inner loop fills one row with longest-common-subsequence lengths from a row below that has them, and touches no other row |
| Lcs.FillTable | crates/diff/src/lib.rs:60-74 | Every cell of the table filled in place, from the bottom right, is the longest-common-subsequence length of the two suffixes |
| Lcs.EditsLossless | crates/diff/src/lib.rs:75-124 | The greedy traceback never loses or reorders an element: its A side is the first list, its B side the second |
| Lcs.CommonIsShorter | crates/diff/src/lib.rs:60-74 | No common subsequence of the two key lists is longer than the table's value |
| Lcs.EditsAreOptimal | crates/diff/src/lib.rs:60-124 | The pairs the traceback keeps form a common subsequence, and none is longer |
| Lcs.LcsSymmetric | crates/diff/src/lib.rs:60-74 | Swapping the two lists leaves the table's value unchanged |
| Diff.AlignSpans | crates/diff/src/lib.rs:60-124 | The loops over the table, for any key, produce the alignment the theorems below are about |
| Diff.AlignmentLossless | crates/diff/src/lib.rs:74-124 | The left column is list A, the right column list B, and each pair has the shape its kind says; aligned pairs share a key and are marked changed exactly when their content diverged |
| Diff.AlignmentOptimal | crates/diff/src/lib.rs:60-124 | The number of aligned pairs is the maximum over all common subsequences, is reached, and is the same for (a, b) and (b, a) |
| Diff.FirstDivergenceExact | crates/diff/src/lib.rs:33-56 | The first pair that is not equal stands at the length of the longest prefix on which the lists agree in key and content; there is none only if the lists agree from end to end |
| Diff.AgreeExactly | crates/diff/src/lib.rs:29-56 | Two spans with attribute objects agree exactly if kind, name and status are equal and every attribute but the two that link a branch to its parent is in both with one value or in neither |
| Diff.AgreeAsText | crates/diff/src/lib.rs:39-52 | Where one of them has no attribute object they agree exactly if neither has and the columns hold the same text, an empty one counting as none |
| Diff.JoinedKeyCollides | packages/ui/src/data/diff.ts:11 | The joined key confuses spans of two kinds exactly when one kind followed by a space begins the other |
| Diff.WordsAreMaximalRuns | packages/ui/src/data/diff.ts:84-85 | The words of a text are maximal runs of one class, space or not, and together give the text |
| Diff.WordDiff | packages/ui/src/data/diff.ts:83-115 | The imperative word diff, appending to the last segment in place, yields the merged segments of the optimal edit script |
| Diff.WordDiffMeaning | packages/ui/src/data/diff.ts:83-115 | Kept and removed segments rebuild a, kept and added ones b, neighbours never share an op, and the number of kept words is maximal |
| Diff.WordDiffSelf | packages/ui/src/data/diff.ts:83-115 | A text against itself is at most one kept segment |
| Breakpoint.Parser.Or | crates/breakpoint/src/lib.rs:132-139 | The cursor-moving parser of a disjunction returns what the recursive parser does and leaves the cursor where it ends |
| Breakpoint.Parser.And | crates/breakpoint/src/lib.rs:140-147 | The same for a conjunction |
| Breakpoint.Parser.Not | crates/breakpoint/src/lib.rs:148-155 | The same for a negation |
| Breakpoint.Parser.Primary | crates/breakpoint/src/lib.rs:156-180 | The same for brackets and comparisons, with each of the four errors |
| Breakpoint.ParserMeetsGrammar | crates/breakpoint/src/lib.rs:3-12 | For any set of operators, parsing returns e and e has no other operators exactly when the whole token list derives e in the stated grammar with these as OP; with the seven stated ones, this is the stated grammar: left associative, NOT over AND over OR |
| Breakpoint.GrammarUnambiguous | crates/breakpoint/src/lib.rs:3-12 | No token list derives two expressions, whatever the operators |
| Lexer.Lex | crates/breakpoint/src/lib.rs:44-104 | The cursor loop, in each of the three dialects, yields the tokens of the source or the same error |
| Lexer.PrintedTokensParse | crates/breakpoint/src/lib.rs:118-194 | The token form of any expression, bracketed where precedence asks for it, parses back to it |
| Lexer.PrintParseRoundTrip | crates/breakpoint/src/lib.rs:44-194 | Lexing and parsing the text of that form returns the expression, in every dialect, for every expression whose fields are words but no keywords or numbers, whose texts lack one of the two quotes and whose numbers are written as words that read as them |
| Dialects.TokensCompared | tools/ref_ingest/bp.py:16-69 | Rust and TypeScript make the same tokens; Python makes them too, and rejects exactly the sources with a lone = or ! |
| Dialects.SourcesMeetGrammar | crates/breakpoint/src/lib.rs:44-104 | Each copy accepts exactly the sources whose tokens derive an expression in the grammar with the operator tokens its lexer makes: the seven stated ones in Python, these and the lone = and ! in Rust and TypeScript |
| Dialects.OutsideTheGrammar | crates/breakpoint/src/lib.rs:10 | Python accepts no source outside the stated grammar; a source that Rust or TypeScript accepts is in it exactly when it has no lone = or ! |
| Dialects.LoneOpsAccepted | crates/breakpoint/src/lib.rs:71-79 | A field compared with a quoted text by a lone = or ! is accepted in Rust and TypeScript as that comparison and rejected in Python |
| Dialects.AcceptanceCompared | tools/ref_ingest/bp.py:39-44 | Rust and TypeScript parse every source alike; Python accepts exactly those without a comparison by a lone = or !, with the same tree |
| Dialects.LoneOpsCompareFalse | crates/breakpoint/src/lib.rs:196-218 | Such a comparison holds of no span |
| Dialects.TsEvalIsRustEval | packages/ui/src/data/breakpoint.ts:127-144 | The TypeScript and Rust evaluators agree on every expression and span |
| Dialects.PyEvalIsRustEval | tools/ref_ingest/bp.py:135-156 | Without boolean literals the Python evaluator agrees with them |
| Meaning.ContainsMeans | crates/breakpoint/src/lib.rs:200-203 | In all three copies contains holds exactly of a field whose text is the literal with any text before and after it |
| Meaning.OrderingsMean | crates/breakpoint/src/lib.rs:204-215 | In each copy the four orderings hold exactly of a field with a number so ordered to the literal, where Python counts true as one and false as zero |
| Meaning.EqualityMeans | packages/ui/src/data/breakpoint.ts:127-129 | Equality with a text or number holds exactly of a field with that value, inequality exactly of any other |
| Meaning.UnknownField | crates/breakpoint/src/lib.rs:225 | Of a field that the span does not have only != holds |
| Meaning.WordMeans | crates/breakpoint/src/lib.rs:82-103 | A word is one of six keywords in any case, else a number if it reads as one, else a field |
| BoolLiterals.BoolLiteralsDisagree | tools/ref_ingest/bp.py:135-144 | One comparison means the same in Python and Rust on every span that can be ingested exactly when its literal is no boolean, its operator is contains, its field is none of the four numeric ones, or it is duration_ms < false |
| BoolLiterals.HarmlessEvalAgrees | tools/ref_ingest/bp.py:135-156 | A predicate all of whose comparisons are of this kind holds of the same spans in all three copies |
| Dialects.PyEvalNeverFails | tools/ref_ingest/bp.py:142-144 | The operator table is never asked for an operator it does not hold |
| Dialects.ThreeCopiesAgree | crates/breakpoint/src/lib.rs:183-227 | A source Python accepts is one tree in all three copies, and without boolean literals holds of the same spans in all of them |
| Forest.KidsMembers | packages/ui/src/data/nav.ts:7-18 | The children under a key are exactly the spans that hang there, sorted by start, then id; a parent outside the list counts as none |
| Forest.PathUnique | packages/ui/src/data/nav.ts:7-32 | A span has at most one root path, so the walk cannot meet it twice |
| Forest.PathBounded | packages/ui/src/data/nav.ts:24-30 | No root path is longer than the list: the walk ends, whatever cycles the parents form |
| Forest.PreorderVisits | packages/ui/src/data/nav.ts:21-32 | The walk visits exactly the root paths |
| Forest.PreorderOrdered | packages/ui/src/data/nav.ts:21-32 | It visits them in strictly increasing lexicographic order, siblings compared by start and id |
| Forest.PreorderExact | packages/ui/src/data/nav.ts:21-32 | Preorder holds exactly the spans a root reaches, each once |
| Forest.PermutationIffAcyclic | packages/ui/src/data/nav.ts:21-32 | Preorder is a permutation of the list if and only if no parents form a cycle |
| Forest.ParentsFirst | packages/ui/src/data/nav.ts:21-32 | Every parent comes before its children |
| Forest.SubtreesContiguous | packages/ui/src/data/nav.ts:21-32 | Every subtree is an unbroken stretch of the preorder |
| Forest.SiblingsOrdered | packages/ui/src/data/nav.ts:14-16 | Siblings stand in order of start and id |
| Nav.ChildrenMap | packages/ui/src/data/nav.ts:7-18 | The map filled in a loop and sorted holds the children of every key |
| Nav.Walker.Walk | packages/ui/src/data/nav.ts:24-29 | The recursive closure appends to the output exactly the spans below its argument, in walk order |
| Nav.PreorderRun | packages/ui/src/data/nav.ts:21-32 | The imperative preorder computes the specified one |
| Nav.PathToRun | packages/ui/src/data/nav.ts:45-55 | The loop with its seen set ends on every list, cycles included, and returns the ancestor chain |
| Nav.PathToIsRootPath | packages/ui/src/data/nav.ts:45-55 | For a visible span the chain is its root path |
| Nav.ParentOfIsParentKey | packages/ui/src/data/nav.ts:34-38 | The parent looked up by id is the span the tree hangs it under |
| Nav.FirstChildNext | packages/ui/src/data/nav.ts:40-42 | The first child of a span is the next span of the preorder |
| Nav.StepIsNext | packages/ui/src/data/nav.ts:59-87 | On the preorder, step moves as next does, for every current span and for none |
| Nav.NextVisitsAll | packages/ui/src/data/nav.ts:68-71 | Pressing next n times from no selection reaches the n-th span of the order and then stays on the last |
| Nav.PrevUndoesNext | packages/ui/src/data/nav.ts:68-75 | Away from the ends prev takes back next |
| Nav.MovesFromNowhere | packages/ui/src/data/nav.ts:65-84 | Without a current span, or with one that is not in the order, next, prev and step go to the first span and finish nowhere |
| Nav.MovesAtTheEnds | packages/ui/src/data/nav.ts:70-74 | Next stops after the last span of the order and prev before the first |
| Nav.FinishGoesUp | packages/ui/src/data/nav.ts:83-86 | Finish moves strictly earlier, to the next-to-last entry of the ancestor chain, and stays only at a root |
| Rows.BuildSpanRows | packages/ui/src/data/tree.ts:14-42 | The map filled in a loop and the recursive closure push the specified rows |
| Rows.RowsAreVisiblePreorder | packages/ui/src/data/tree.ts:14-42 | On spans in store order the rows are exactly the preorder spans with no collapsed proper ancestor |
| Rows.DepthIsChainLength | packages/ui/src/data/tree.ts:26-38 | The depth of a row is the length of its ancestor chain less one |
| Rows.DepthsDecode | packages/ui/src/data/tree.ts:14-42 | The depth column alone determines the parent of every row: the last row before it that is one level up |
| Rows.LeaderDecodes | packages/ui/src/data/tree.ts:30-34 | A prefix text determines the depth and which ancestors were last |
| Rows.PrefixDecodes | packages/ui/src/data/tree.ts:30-34 | A prefix text determines which ancestors were last and, below the roots, whether the row itself was |
| Rows.PrefixColumnDecodes | packages/ui/src/data/tree.ts:26-42 | The prefix column alone determines the forest the rows show: two row lists with equal prefix columns, of whatever spans and whatever is collapsed, have the parent of each row at the same position |
| Rows.PrefixShows | packages/ui/src/data/tree.ts:30-32 | In the prefix of a row three blanks stand for each ancestor that starts last among its siblings and a bar for each other, and below the roots an elbow ends it if the row's span starts last and a tee if not |
| Db.ResolveProject | tools/ref_ingest/store.py:54-60 | A project found by name has that name and is stored; if none is found, no stored project has the name |
| Db.Store.EnsureProject | tools/ref_ingest/store.py:54-64 | Returns the stored project of the name, changing nothing, or stores one under a new id |
| Db.Store.UpsertTrace | tools/ref_ingest/store.py:68-96 | Overwrites the row of the trace and leaves every other row as it was |
| Db.Store.UpsertSpan | tools/ref_ingest/store.py:98-131 | Overwrites the row of the span; one without a start is rejected and changes nothing |
| Db.Store.InsertMessage | tools/ref_ingest/store.py:133-150 | Stores the message under its id and changes nothing else |
| Db.Store.InsertToolCall | tools/ref_ingest/store.py:152-170 | Stores the tool call under its span and changes nothing else |
| Db.Store.UpsertLlmCache | tools/ref_ingest/store.py:259-273 | Overwrites the cached response of the prompt, for all traces; a row without a model is rejected and changes nothing |
| Db.Store.GetSpans | tools/ref_ingest/store.py:217-227 | Returns each stored span of the trace once, by start, then id, those without a start first |
| Db.Store.LastAssistant | tools/ref_replay/engine.py:54-58 | Finds the assistant message of the span with the greatest place in its conversation, or that there is none |
| Db.Store.AddBreakpoint | tools/ref_ingest/store.py:283-292 | Stores an enabled breakpoint with no hits under a new id |
| Db.Store.DeleteBreakpoint | tools/ref_ingest/store.py:294-295 | Removes that breakpoint only |
| Db.Store.EnabledBreakpoints | tools/ref_ingest/store.py:306-310 | Lists each enabled breakpoint once with its predicate, and no other |
| Db.Store.RecordBreakpointHit | tools/ref_ingest/store.py:312-321 | Counts one hit and names the span, trace and time; an unknown id changes nothing |
| Db.PrefixesKeepIntegrity | tools/ref_ingest/schema.py:9-14 | If each write finds its parent row when its turn comes, no row is orphaned after any prefix of the run, also if the run aborts |
| IngestRun.ExtractMessages | tools/ref_ingest/mapper.py:162-186 | The nested loops return the prompts, then the completions, up to the first missing one, numbered through and with new ids |
| IngestRun.DetectHits | tools/ref_ingest/mapper.py:319-331 | One hit is recorded for each compiled breakpoint that holds of the span, in order |
| IngestRun.AggregateGroup | tools/ref_ingest/mapper.py:249-291 | The accumulating loop yields the trace row of the group |
| Labels.TitleAndLinks | tools/ref_ingest/mapper.py:264-271 | The title is the name of the last span of the group without a parent, and each link the one that the last span with that link gives |
| Labels.StartsNow | tools/ref_ingest/mapper.py:283 | A group without any start begins when it is ingested |
| Labels.ProjectRead | tools/ref_ingest/mapper.py:230-234 | A resource's project is its stethoscope.project, else its service.name, else default, empty ones passed over |
| IngestRun.IngestSpan | tools/ref_ingest/mapper.py:293-332 | Writes the span, its messages, tool call, cache entry and hits in that order, stopping at the first rejected one; what these rows hold is said by the rows on Columns |
| Columns.KindRead | tools/ref_ingest/mapper.py:113-121 | A stated kind is kept; without one a span is a model call exactly if its row has a model, else a tool call exactly if it has a tool name or a name that starts with tool:, else a node |
| Columns.KindInferred | tools/ref_ingest/mapper.py:113-121 | Had the SDK not stated the kind of a model call, a tool call or a node, ingestion would infer the same one, given a model name and no model or tool key on a node |
| Columns.RootKindInferred | tools/ref_ingest/mapper.py:113-121 | The same for the root of a run whose title does not start with tool: |
| Columns.CacheRead | tools/ref_ingest/mapper.py:303-317 | A span gets a cache row exactly if its row is a model call, it has a prompt hash and a first completion; without a stated kind, exactly if it has a model, a hash and a completion; the row holds these, and the time of ingestion if the span has no start |
| Columns.ToolRead | tools/ref_ingest/mapper.py:189-199 | A span gets a tool call exactly if its row is one and it has a tool name under one of two keys, the first of which wins |
| Columns.ToolNamedTwice | packages/sdk-python/src/stethoscope/instrument.py:125-133 | The SDK names a tool under both keys: without either one the stored call is the same |
| Columns.AddedShows | packages/sdk-python/src/stethoscope/instrument.py:58-142 | The row shows every attribute added to a span while it was open, and those given with a model call or a node, save under the keys the SDK writes itself |
| Columns.CountsRead | tools/ref_ingest/mapper.py:64-76 | A token column holds a number exactly if the attribute is that integer or a text that reads as it |
| Columns.NumbersRead | tools/ref_ingest/mapper.py:79-93 | Cost and temperature hold a number exactly if the attribute is it, whole or not, or a text that reads as it |
| Columns.TimesRead | tools/ref_ingest/mapper.py:103-134 | Zero is no time; a span that starts and does not end before has its duration in whole milliseconds, and no other has one |
| Columns.StatusRead | tools/ref_ingest/mapper.py:124-128 | A row is an error exactly if the status code is 2, with the status message unless it is empty |
| IngestRun.IngestGroup | tools/ref_ingest/mapper.py:273-332 | Writes the trace row before any of its spans |
| IngestRun.GroupByTrace | tools/ref_ingest/mapper.py:239-242 | Groups in order of first appearance, spans in arrival order within each |
| Labels.GroupsKeepOrder | tools/ref_ingest/mapper.py:239-242 | The groups stand as their traces first come up in the resource, and each holds the spans of its trace as they came |
| IngestRun.GroupingConserves | crates/ingestion/src/mapper.rs:157-166 | Grouping neither loses nor doubles a span |
| IngestLaws.BucketsByTrace | tools/ref_ingest/mapper.py:239-242 | The groups have distinct traces, each holds spans of its own trace only, and together they are a permutation of the spans |
| IngestRun.IngestRequest | tools/ref_ingest/mapper.py:218-333 | The store afterwards is the run of the request's writes up to the first rejected one; when none is, the count returned is the number of spans in the request |
| IngestLaws.IngestionNeverOrphans | tools/ref_ingest/mapper.py:228-302 | After every single write of every batch, aborted or not, each trace's project, each span's trace and each message's and tool call's span exist |
| BreakpointHits.BatchCountsMatches | tools/ref_ingest/mapper.py:319-331 | An enabled breakpoint that parses grows by exactly the number of span occurrences it holds of among those before the first rejected span, repeated ids included, and names the last; any other is left as it was; without a rejection these are all the spans of the request |
| Reingest.ReingestionIdempotent | tools/ref_ingest/mapper.py:218-333 | Ingesting a batch again, at another time and with other new ids, leaves projects, traces, spans, tool calls and cache as once, also if the batch aborts, provided each group has a start |
| GroupOrder.GroupOrderIrrelevant | crates/ingestion/src/mapper.rs:157-257 | Whichever order the unordered groups of each resource of a request are iterated in, the request is accepted or not alike, and the project, trace, span and tool-call tables come out the same, when no two groups of a resource share a span id |
| TraceTotals.TraceRowMatchesSpans | tools/ref_ingest/mapper.py:249-291 | For a new trace with one group and distinct span ids, cost, tokens, status, earliest start and latest end of the row equal a recomputation from the stored spans in any order |
| Replay.PinnedReplayRepeats | examples/replayable_agent/agent.py:41-56 | Replaying a finished run in which every call gets the recorded response, pinned or live, repeats it: every replay is a prefix of it, and every finished one is it |
| Replay.MutatedReplayAgrees | examples/replayable_agent/agent.py:41-56 | With one tool's response changed a replay repeats the recording up to the first call of that tool, makes the same call, and gets the new value, if all other calls get the recorded response |
| Replay.ManifestTurn | tools/ref_replay/engine.py:49-62 | One turn pins the cached response of a model span, or else its last assistant message, and the result of a tool span, later spans overwriting |
| Fallback.UnansweredIsPinned | tools/ref_replay/engine.py:54-58 | For an ingested model call without a completion whose hash is not cached, the turn pins the text of the prompt with the greatest index whose role is assistant, and nothing if there is none |
| Fallback.LastMessagePins | tools/ref_replay/engine.py:54-58 | On any store: with no cached response the turn pins the content of the assistant message with the greatest place in the conversation, or the empty text if it has none |
| Fallback.OnlyPromptsPin | tools/ref_replay/engine.py:50-53 | Other spans, and model calls without a hash, pin no prompt; a cached response is pinned whatever the messages say |
| Replay.EntrypointIs | tools/ref_replay/engine.py:24-31 | The entrypoint is the text that the first span without a parent has under its key, and missing if that span has none |
| Replay.BuildManifest | tools/ref_replay/engine.py:34-79 | Refuses an unknown trace, a missing entrypoint, another mutation type and a span that is no tool call; else returns the fold over the spans in store order with the mutated response on top |
| Capture.LlmCallRoundTrip | packages/sdk-python/src/stethoscope/instrument.py:71-114 | Every value given to the SDK for a model call comes back from the ingested row in its own column, one not given, prompt hash included, comes back as missing, and an exception comes back as the error of the row |
| Capture.CallsAreEvents | packages/sdk-python/src/stethoscope/instrument.py:86-108 | A model call given a prompt hash leaves exactly the span of a model event of a run, answered or failed |
| Capture.ConversationRoundTrip | packages/sdk-python/src/stethoscope/instrument.py:101-106 | The prompt messages and the completion, if one is given, come back as the messages of the span, in order, numbered through, with their roles |
| Capture.CacheRoundTrip | tools/ref_ingest/mapper.py:303-317 | The replay cache keeps a completion with its model and token counts under the prompt hash, for every call that has both, and nothing for any other |
| Capture.ToolCallRoundTrip | packages/sdk-python/src/stethoscope/instrument.py:117-136 | A tool call comes back with its name, arguments, result and error, each where it was given, exactly when it has a name |
| Capture.ToolEventRoundTrip | tools/ref_ingest/mapper.py:298-302 | The tool call stored for a tool event of a run has its name and arguments, and a result exactly if the call was answered |
| Recording.SameEventsAgree | packages/sdk-python/src/stethoscope/instrument.py:58-142 | The same event leaves spans that do not diverge exactly if they end alike, with the same status and attributes, whatever ids and times the tracer gave them |
| Recording.RootsAgree | examples/replayable_agent/agent.py:59-71 | Two roots of one script do not diverge exactly if they end alike: the links a replay adds do not count |
| Recording.OtherResponseDiverges | packages/sdk-python/src/stethoscope/instrument.py:71-142 | The same call with another answer, or answered once and failed once, leaves a span that diverges, however it ends |
| Recording.OtherArgumentsDiverge | crates/diff/src/lib.rs:34-55 | Two calls of one tool with different arguments leave spans that diverge |
| Recording.FailuresLookAlike | packages/sdk-python/src/stethoscope/instrument.py:111-142 | Two failures of one call do not diverge exactly if their spans end alike, whatever the errors |
| Recording.DiffOfRuns | crates/diff/src/lib.rs:126-129 | For two runs that first part in an outcome the diff points at the first span up to that call that ends differently, or else at the call, and at nothing if they never part and all spans end alike |
| Closings.UnlikeIsOpen | packages/sdk-python/src/stethoscope/instrument.py:45-142 | Two runs of one agent that part at a call have ended every span that is closed by then alike: the first span that ends differently is one of those open at that call |
| Recording.RowsSorted | tools/ref_ingest/store.py:217-227 | The rows of a run stand in store order exactly when its start times ascend, ties broken by id |
| ReplayLaws.ManifestCollects | tools/ref_replay/engine.py:47-62 | From a stored recording the loop collects the last answer of each tool and, for each prompt, the cached response or else the last assistant message of its span, and nothing else |
| ReplayLaws.ManifestPins | tools/ref_replay/engine.py:47-79 | Under the manifest all recorded calls get the recorded responses if and only if the recording is repeatable with the laid-over value and the live outcomes of unrecorded calls |
| ReplayLaws.ReplayParts | examples/replayable_agent/agent.py:41-56 | A finished replay equals the recording up to the first call that does not get the recorded response, and there makes the same call with the other response |
| ReplayLaws.ReplayDiff | tools/ref_replay/engine.py:47-79 | From any store that holds the recording: no divergence exactly when it is repeatable, and else the diff names the first of the spans around the first call answered differently that ends differently, or that call; if that call failed both times this holds as far as the spans around it go |
| ReplayLaws.PointsAtCall | tools/ref_replay/engine.py:47-79 | The diff points at the call answered differently exactly if every span open around it ends alike in both runs |
| ReplayLaws.RootFailureFirst | packages/sdk-python/src/stethoscope/instrument.py:50-55 | If an exception left one of the two runs through its root and not the other, the diff points at the root |
| Raised.EditedReplay | examples/replayable_agent/agent.py:41-56 | For the agent that raises out of its root unless it gets the good answer: the run with the good answer is the replay with the edited response, and its one call is the first answered differently |
| Raised.DiffPointsAtRoot | packages/sdk-python/src/stethoscope/instrument.py:50-55 | The diff of these two runs of that agent points at the root and not at the call that was edited |
| ReplayLaws.MutationDivergesAtFirstCall | tools/ref_replay/engine.py:64-71 | With any value but the recorded one, and all else repeatable, the first call of the mutated tool is the first that is answered differently |
| Deliveries.RequestGives | tools/ref_ingest/mapper.py:293-317 | The span, tool-call and cache rows a request writes are those of the spans in it, each of them and no others |
| Deliveries.WholeIsAccepted | tools/ref_ingest/schema.py:60-67 | A request is ingested to its end exactly when none of its spans is rejected, whatever the store held before |
| RecordingKept.IngestionRecords | tools/ref_ingest/mapper.py:218-333 | Delivering the spans of a run as a new trace, in however many requests, in whatever order, beside whatever else, repeated or with some requests cut short, records it: its spans in order, its tool calls, a cached response for each answered prompt |
| RecordingKept.CacheHoldsReply | tools/ref_ingest/store.py:259-273 | The cache then holds the recorded response of every prompt that had one response only, before and in the deliveries |
| RecordingKept.RecordingOutlives | tools/ref_ingest/store.py:68-170 | Later deliveries in which nothing else claims the trace or a span id of the run, finished or aborted, leave the recording as it is |
| RunLabels.RunRow | tools/ref_ingest/mapper.py:249-291 | The trace row written for any part of a run carries its title and, for a replay, the trace and span it branched from exactly if the root is in that part, and says failed exactly if a span left with an error is |
| RunLabels.LastSentStays | tools/ref_ingest/store.py:68-83 | After any deliveries none of which is cut short for the trace, its row is the one written for its last group |
| RunLabels.StoredRunRow | tools/ref_ingest/mapper.py:249-291 | The stored row of a run delivered in any number of requests says what it should exactly when its last group brings the root and, if any span was left with an error, one that was |
| RunLabels.SplitRunForgets | packages/sdk-python/src/stethoscope/_otel.py:66 | A run delivered as its events first and its root last, as a tracer that exports in batches may, is stored as failed exactly if the root itself was left with an error |
| RecordingKept.BranchOfRecording | tools/ref_replay/engine.py:24-45 | A branch is built from exactly the recorded spans and re-runs the script that was recorded |
| RecordingKept.BranchRound | tools/ref_replay/engine.py:82-129 | Record, branch, replay, deliver, compare, with both runs delivered in any number of requests: the diff of the two stored traces is empty if and only if the recording is repeatable, and otherwise points at the first span around the first call answered differently that ends differently, or at that call; if that call failed both times, as far as the spans around it go |
| Nesting.NestedIsPreorder | packages/ui/src/data/nav.ts:21-32 | Spans that were opened under a stack and are listed by start are in preorder |
| Nesting.RunsNest | packages/sdk-python/src/stethoscope/instrument.py:45-142 | The spans of every run, opened and ended by context managers, were opened under a stack |
| Nesting.BothDiffsAgree | packages/ui/src/data/diff.ts:38-78 | For two recorded runs the browser's diff of the trees and the desktop's diff of the rows name the same first divergence |
| LockProtocol.StepSafe | tools/ref_replay/engine.py:92-117 | Every step keeps: the lock is held by exactly the task inside it, the worker pool is not exceeded, and only a running subprocess sends its exports |
| LockProtocol.PoolOfFour | tools/ref_ingest/server.py:60 | In every reachable state at most four exports are being served, and a queued one is picked up exactly if fewer are |
| LockProtocol.OneExportAtATime | packages/sdk-python/src/stethoscope/_otel.py:46-66 | In every reachable state an export of a process is under way only once its sender is done with each earlier one |
| LockProtocol.MutualExclusion | tools/ref_ingest/server.py:38-47 | In every reachable state at most one task is inside the lock, and it is never a branch whose subprocess runs |
| LockProtocol.Progress | tools/ref_ingest/api.py:86-146 | While anything is unfinished some step other than killing a subprocess or giving up an export is possible |
| LockProtocol.AllFinish | tools/ref_replay/engine.py:3-7 | Every run ends within a bound set at its start, and where nothing is left but killing a subprocess or giving up an export everything has finished |
| LockProtocol.KeepingShutsOut | tools/ref_replay/engine.py:3-7 | Were the lock kept across the subprocess, none of its exports would be ingested before the branch is over, however the run goes on |
| LockProtocol.KeepingDeadlocks | tools/ref_replay/engine.py:3-7 | And every run from then on would stop with the branch still running, unless it is killed or its exporter gives up |
| LockProtocol.KeepingStalls | tools/ref_replay/engine.py:3-7 | Every branch with anything to export gets into that state as soon as its manifest is built |
| Cloud.WritesStayInside | cloud/api/store_pg.py:45-195 | A write through one tenant's connection changes that tenant's view as a private store would, and no other tenant's view |
| Cloud.UriRoundTrip | cloud/api/store_s3.py:56-73 | A reference is read back as bucket and key exactly when the bucket name has no slash |
| Cloud.UriNames | cloud/api/store_s3.py:67-73 | A reference is read as the bucket before its first slash and the key after it, or as a bucket with an empty key if it has no slash |
| Cloud.PayloadReads | cloud/api/store_s3.py:76-91 | A payload reads back as it was written, inline or not, and its reference always resolves |
| Cloud.CachedReads | cloud/api/store_s3.py:130-168 | A cached response reads back as written exactly when it was moved out or does not start with s3:// |
| Cloud.WriteKeepsStanding | cloud/api/store_s3.py:112-137 | After a write through the wrapper the tenant's rows stand for those of its private store after the same write; every other tenant's still stand for theirs |
| Cloud.TenantsAreAlone | cloud/api/tenancy.py:7-12 | After any interleaving by any number of tenants each tenant's rows stand for those of a private store given its writes alone |
| Cloud.RejectedWriteShows | cloud/api/schema_pg.sql:58-80 | The shared table and a private store part exactly on the writes the private store rejects |
| CloudStore.PgStore.EnsureProject | cloud/api/store_pg.py:45-57 | Returns this tenant's project of the name or adds one for this tenant, when nothing comes between its two statements |
| ProjectRace.UniqueIffNotOvertaken | cloud/api/store_pg.py:45-57 | With the two statements apart, over any run of any number of requests: no tenant gets a name twice exactly if no request adds a name that was added since it looked |
| ProjectRace.OneAtATimeUnique | cloud/api/tenancy.py:258-263 | Names stay unique while no two requests of a tenant for one name are between their two statements, as a lock per tenant ensures |
| ProjectRace.TwoRequestsStoreTwice | cloud/api/tenancy.py:285-300 | Under a lock of its own each, any two requests of a tenant for a new name can store it twice |
| CloudStore.PgStore.GetSpans | cloud/api/store_pg.py:250-255 | Returns this tenant's spans of the trace by start, then id, those without a start last |
| CloudStore.PgOrderIsStoreOrder | cloud/api/store_pg.py:250-255 | That is the plain store's order wherever every span has a start |
| CloudStore.PgStore.GetMessages | cloud/api/store_pg.py:265-271 | Returns this tenant's messages of the span, each once, in order |
| CloudStore.PgStore.RecordBreakpointHit | cloud/api/store_pg.py:173-179 | Counts a hit on this tenant's breakpoint only |
| CloudStore.PgStore.DeleteBreakpoint | cloud/api/store_pg.py:191-195 | Removes this tenant's breakpoint only |
| CloudStore.S3OffloadStore.MaybeOffload | cloud/api/store_s3.py:76-82 | Puts one object exactly for a payload that the rows on PayloadSizes say is moved out |
| PayloadSizes.OffloadMeans | cloud/api/store_s3.py:56-82 | A payload stays exactly if there is no bucket or it is no longer than the threshold; else one object in the tenant's folder holds it and the row the reference to that object |
| PayloadSizes.HistorySizes | cloud/api/store_s3.py:76-137 | After any history, in every tenant's view: with a bucket every inline content, argument and result is no longer than the threshold, every cached response is that or a reference, and every object is longer; without a bucket there are no objects and no references |
| PayloadSizes.ObjectsInFolders | cloud/api/store_s3.py:56-64 | Every object that any history leaves is in the bucket, in the folder of a tenant that wrote, under an id drawn for one of its writes |
| PayloadSizes.ReadBack | cloud/api/store_s3.py:85-91 | Read back is the inline text if there is one, else the object that the reference names, else nothing |
| CloudStore.S3OffloadStore.InsertMessage | cloud/api/store_s3.py:112-116 | The state afterwards is the modelled write, payload moved out or kept |
| CloudStore.S3OffloadStore.InsertToolCall | cloud/api/store_s3.py:118-128 | The same for both payloads of a tool call |
| CloudStore.S3OffloadStore.UpsertLlmCache | cloud/api/store_s3.py:130-137 | The same for a cached response, whose column then holds the reference |
| CloudStore.S3OffloadStore.GetMessages | cloud/api/store_s3.py:141-147 | The conversation a private store would return, apart from the reference column |
| CloudStore.S3OffloadStore.GetToolCall | cloud/api/store_s3.py:149-159 | The tool call a private store would return, apart from the reference columns |
| CloudStore.S3OffloadStore.GetLlmCache | cloud/api/store_s3.py:161-168 | The row a private store would return, exactly when the response can be read back |
| CloudStore.S3OffloadStore.ExportTrace | cloud/api/store_s3.py:170-191 | The export succeeds with the private store's bundle if and only if every cached response it needs can be read back |
| CloudStore.EveryHistoryMirrors | cloud/api/store_s3.py:94-108 | After any interleaving of writes the wrapper of each tenant mirrors that tenant's private store, which is all the readers above ask for |
| IngestLaws.RequestWritesKinds | tools/ref_ingest/mapper.py:174-198 | Ingestion hands every payload over inline, so batches may be part of such a history, and never changes the list of breakpoints |
| Export.SelectMessages | tools/ref_ingest/store.py:233-239 | Returns the messages of the span, each once, in the order they were said |
| Export.ExportTrace | tools/ref_ingest/store.py:325-347 | The bundle has the trace's spans in order and, for those spans, exactly the messages, tool calls and cached responses the store holds |
| Continue.Workbench.Continue | packages/ui/src/store.ts:236-279 | The loop with early exit selects the next matching span after the selection, or the last span; with no spans it changes nothing |
| Continue.ContinueGoes | packages/ui/src/store.ts:252-277 | The search starts after the selected span, or at the top if none is selected or it is not shown, and goes to the first span that matches, else to the last one |
| Continue.FieldsShown | packages/ui/src/store.ts:255-267 | What a predicate sees of the texts of a row, with nothing for a missing one, and as tool name what follows tool: in its name |
| Continue.ContinueStopsExactly | packages/ui/src/store.ts:241-267 | The stops are exactly the visible spans that some enabled breakpoint that parses holds of, each once and in preorder |
| Continue.ContinueVisitsHits | packages/ui/src/store.ts:236-279 | Repeated continues from no selection make those stops one after the other and then rest on the last span |
| Continue.SameContext | packages/ui/src/store.ts:253-267 | The browser and the ingestion evaluate predicates on the same context of a span exactly if its name tells of the tool that was stored |
| Continue.StopsAreHits | packages/ui/src/store.ts:250-262 | On every such span the browser's continue stops exactly where ingestion counted a hit, for every predicate Python accepts in which no comparison with a boolean literal makes a difference |
| Continue.OtherwiseTheyPart | packages/ui/src/store.ts:250-262 | On every other span some predicate holds in one of them only |
| Continue.RunsTellTools | packages/sdk-python/src/stethoscope/instrument.py:117-136 | The spans of a run tell of their tools, if every tool call has a name |
| Ulid.Encode | tools/ref_ingest/ids.py:12-17 | The shifting loop, read backwards, gives the base-32 digits of the value |
| Ulid.DecodeInverts | tools/ref_ingest/ids.py:9-17 | Decoding an encoding gives the value modulo 32 to the length: all of it exactly when it fits |
| Ulid.EncodeInverts | tools/ref_ingest/ids.py:9-17 | Every text of alphabet characters is the encoding of the value it decodes to |
| Ulid.EncodingsSort | tools/ref_ingest/ids.py:12-17 | Values that fit sort as their encodings do, strictly |
| Ulid.AlphabetIs | tools/ref_ingest/ids.py:9 | The digits are the decimal ones and the capital letters but I, L, O and U |
| Ulid.BitsKept | tools/ref_ingest/ids.py:21-22 | 48 bits of the clock and 80 random bits are kept, all of them and no more of the clock |
| Ulid.IdsSortByTime | tools/ref_ingest/ids.py:20-23 | Ids sort by time first and by random part within a millisecond, and are equal only if both parts are |

## Left out

- gRPC, HTTP, FastAPI, SQS, Terraform, authentication and connection pooling: only the points where the lock is taken and released are modelled.
- SQL, DuckDB, Postgres and S3 themselves: tables and buckets are maps with overwrite on conflict, and a read is a listing in the stated order.
- Protobuf and JSON: attributes are maps, and re-encoding a tool result as JSON is taken to give the same text. Attribute text that is JSON but no object is kept as text, which is the Rust reading.
- Redaction patterns: a captured text is the text itself.
- Floating point and numeral syntax: numbers are exact, and what counts as a number or as white space is a parameter shared by the three breakpoint copies. Strings are sequences of characters, so UTF-16 code units are not told apart from code points.
- Clocks, ULID and UUID draws are inputs. A start time is at the resolution the store keeps; the rounding of nanoseconds is not modelled.
- The Rust mapper differs from the Python one on empty attribute strings (an empty project name, tool name or prompt hash counts as present there); the Python reading is modelled.
- A second batch for a trace overwrites its row, totals included: `RunLabels.LastSentStays` says which row stays, and nothing is claimed about totals across batches. Messages get new ids on every ingest, so nothing is claimed about their number after ingesting twice.
- Rows that tie in an ORDER BY: two messages of one span with one sequence number are taken in id order when the last assistant message is looked up.
- The order of a text comparison by locale: ids and timestamps are compared as numbers.
- The cloud store's get_span leaves out the payload reference and redaction columns that the embedded store returns, and both list readers leave them out; the model carries the redaction flag along.
- Cloud.PayloadReads: assumes a bucket name without a slash, as S3 requires; Cloud.UriRoundTrip shows the condition is exact.
- Export by PgStore alone, without the wrapper: it returns references in place of payloads and is overridden.
- LockProtocol.Progress: speaks of enabled steps; fairness of the operating system's lock is not modelled, and the order in which queued exports are picked up is left open.
- Reingest.ReingestionIdempotent: speaks of batches in which each group of spans has a start time; without one the trace row takes the clock's time, which differs from ingest to ingest.
- Recording.DiffOfRuns: speaks of runs whose start times ascend in event order, ties broken by id; where two spans share a stored start and their random ids fall the other way, the store lists them the other way round (`Recording.RowsSorted` shows the condition is exact). The same holds of all results about recorded runs.
- GroupOrder.GroupOrderIrrelevant: says nothing of the cache, where the last response of a prompt wins, nor of message ids and the last-hit fields of breakpoints, which do depend on the order.
- Attributes added to an open span that overwrite what the SDK wrote of the call itself (kind, model, tool name, prompt hash, result, completion, entrypoint, links): such attributes are taken to leave those as they are.
- A call that raises before its span is opened leaves no span; every call modelled here has one. Spans that are never ended are never exported; context managers end all of them.
- ReplayLaws.ReplayDiff: where the first call answered differently failed in the recording and again, with another error, in the replay, it says where the diff points only as far as the spans around that call go; the error is no attribute of the span, so if these end alike the diff may be empty, or depend on what the agent does about the error.
- The stub crate for replay, state snapshots, saved queries, the Rust word diff, React components, glyphs, the command grammar and the command line: easy members or libraries.
