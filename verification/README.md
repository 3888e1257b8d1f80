# Mega Saver: models and proofs

This project models the parts of the Mega Saver monorepo whose correctness rests on protocols, graph
walks, dynamic programming and stateful caches, and proves what they are for. `dafny verify
dfyconfig.toml` checks all of it.

| files | what they model |
|---|---|
| SyncProtocol, SyncWorld, SyncSafety, SyncOutcome, SyncClient, ConditionalStore | brain-sync: any number of machines pushing and pulling one encrypted brain through a compare-and-swap manifest |
| Base32, Base32Codec, RecoveryCode | the recovery code: base32 over a 32-bit accumulator, grouping, checksum |
| CacheModel, RequestRendering, CacheNamespace, CacheIsolation | the prompt-cache simulator and the namespacing that isolates benchmark runs |
| PrepareArms, RecoveryBreakeven | the two benchmark arms with a memoised saver, and the worst-case break-even |
| Reachability, ContextSelection, ImpactSelection, PackSelection | the two breadth-first selections of code blocks under a budget |
| EditDistance | bounded optimal string alignment |
| CodeTruth, CodeTruthGit, CodeTruthRunner, CodeTruthRepeat | verifying memories against the code they cite: row by row, what git is asked, as a batch, and twice |
| AgentOffice, Supervisor | the agent-office supervisor over stores whose calls may fail |
| EmbeddingIndex | the incremental memory-vector sidecar |
| Retention, RetentionHolds | pruning stored outputs while honouring holds |
| LineProvenance, GapMarkers, GoTestOmission, RecoveryFooter | folding lines while keeping their provenance, marking what excerpts leave out, what go-test excerpts leave unsaid, stating the size |
| ChildCapture, ShownExcerpts, CoChange | capturing a child's output, showing an excerpt once, counting co-changes |

The brain-sync model is an automaton whose steps are the single calls of `push` and `pull`. SyncWorld
interleaves any number of such machines with crashes between any two calls, local edits that only add
coverage, responses that are lost although the call took effect, last-seen writes that are skipped, and
deletes that take effect late. SyncClient writes `push` and `pull` as the loops they are and shows that
they make exactly the automaton's calls. The injected functions come in as a record `Env`; `Lawful` states
what is asked of them: exporting after an import covers the imported bundle, coverage is a preorder, the
hash has no collisions, a rendered manifest parses back.

Where the proofs found the code and its description to differ, the model follows the code:

- `osaDistanceAtMost` answers zero for equal strings even under a negative bound (`PromiseKeptIff`).
- Stripping a cache namespace loses an empty system prompt and stops at an earlier block that already
  carries the prefix (`StripUndoesNamespaceIff`, `EmptySystemIsLost`).
- Benchmark runs are isolated exactly when no breakpoint lies ahead of the marked block; a cached tool list,
  or a cached system block without text, is shared (`IsolatedIffNoBreakpointAhead`, `BreakpointAheadLeaks`).
- The cache simulator charges bytes twice, and creation negatively, exactly when an earlier request cached a
  prefix past the request's own last breakpoint (`ChargedOnceIff`, `ReadPastBreakIsChargedTwice`).
- A prune deletes a pinned chunk file when the directory of its evidence records, or of all of them, cannot be
  listed; only a bad record file stops it (`HoldsAreHonouredIffListed`, `UnlistedPinIsDeleted`).
- `processNextTask` rejects with a task left `running` exactly when the task's write lands and the agent's
  fails (`Strands` in the contract of `ProcessNextTask`, `OneFailingWriteStrands`). From the moment both have
  landed it never rejects.
- A child stopped for its bytes is reported as timed out when the timer fires before it dies, and the first
  kill timer is then left running; output that comes after the call has settled can start one too
  (`StateTellsTheHistory`, `LeftoverTimerIff`, `OverrunThenTimeoutLeavesATimer`, `OverrunAfterSettlementStartsATimer`).
- What is left out of the returned text is to be named by the raw lines of a gap marker. The lines of passing `go test`
  blocks, and those of a failing block between them that the budget drops, are neither shown nor named: the omission
  chunk's range covers them, and its text only counts the passing blocks (`GoTestMarkersAreExactIff`, `SilentIff`,
  `LogLinesAreSilent`). So is a line in which the last remaining chunk is cut (`CutMarkersAreExactIff`).

## Model

| member | source | states |
|---|---|---|
| `SyncSafety.RemoteIsAlwaysReadable` | packages/brain-sync/src/sync.ts:150-180 | in every state any interleaving of pushes, pulls, edits, crashes, lost responses and late deletes can reach, the object the remote manifest names exists, opens under its own key and hashes to the manifest's brainSha256 |
| `SyncSafety.EveryWriteIsTheNextGeneration` | packages/brain-sync/src/sync.ts:157-170 | any step that changes the manifest raises the generation by exactly one, and the new bundle covers the one it replaces |
| `SyncSafety.LandingExtendsTheLatest` | packages/brain-sync/src/sync.ts:123-170 | a machine whose conditional put is admitted was working from the latest generation, and its bundle covers the latest bundle |
| `SyncSafety.FetchKeepsCaller` | packages/brain-sync/src/sync.ts:79-96 | whatever the fetch of the named object answers, including nothing because another machine deleted it, the caller's invariant holds in the phase it goes to |
| `SyncSafety.LaterBundlesCoverEarlierOnes` | packages/brain-sync/src/sync.ts:68-181 | along any run from a reachable state the generation never falls and the later bundle covers the earlier one |
| `SyncSafety.NoFalseAlarms` | packages/brain-sync/src/sync.ts:54-98 | among machines that follow the protocol no call ends in rollback_detected, hash_mismatch, wrong_key or a manifest or decryption error |
| `SyncSafety.ReportedGenerationIsHeld` | packages/brain-sync/src/sync.ts:77-99 | last-seen g always means the local content covers bundle g, which is what makes skipping the merge at g sound; the same holds of every generation a finished call reports |
| `SyncSafety.ConflictMeansThreeForeignWrites` | packages/brain-sync/src/sync.ts:125-186 | a push that ends in sync_conflict saw the remote rise by at least three generations, none of them its own |
| `SyncSafety.StepKeepsInv` | packages/brain-sync/src/sync.ts:48-187 | every step of every machine, crash, edit and late delete keeps the whole invariant of log, store, keys and machines |
| `SyncSafety.RunKeepsInv` | packages/brain-sync/src/sync.ts:48-187 | so does every run |
| `SyncOutcome.PushLeavesItsExport` | packages/brain-sync/src/sync.ts:123-181 | in every run, a push that ends up to date or pushed at generation g has left there the very bundle it exported last, the remote covers it from then on, and merged says whether the push imported anything |
| `SyncOutcome.OutcomeTellsTheOperation` | packages/brain-sync/src/sync.ts:102-187 | in every run, each outcome says what the operation did: only a pull merges or ends empty or with a missing object, only a push ends pushed or in conflict, pushed means it wrote that generation itself, and a transport failure means that one of its calls broke |
| `SyncProtocol.ResumeMakesProgress` | packages/brain-sync/src/sync.ts:102-187 | whatever a call answers, the operation moves strictly towards its end: at most three attempts |
| `SyncClient.Client.ReadRemote` | packages/brain-sync/src/sync.ts:48-66 | one manifest read; a manifest that does not decrypt is wrong_key, none is no remote |
| `SyncClient.Client.MergeRemote` | packages/brain-sync/src/sync.ts:68-100 | the merge makes the automaton's calls in its order and ends where it ends: refused rollback, nothing new, missing object, failed decryption, wrong hash, or import before the last-seen write |
| `SyncClient.Client.PullOnce` | packages/brain-sync/src/sync.ts:102-106 | a pull makes exactly the calls, changes and outcome of the protocol automaton, whatever the outside world answers |
| `SyncClient.Client.PushAll` | packages/brain-sync/src/sync.ts:123-187 | the retry loop makes exactly the calls, changes and outcome of the protocol automaton, so the safety results are about it |
| `SyncClient.ImportsOnlyMoveForward` | packages/brain-sync/src/sync.ts:70-98 | against a remote that answers anything, over any serial pulls and pushes, last-seen never falls and imported generations strictly increase unless a last-seen write failed |
| `SyncClient.OneOperationStaysOrderly` | packages/brain-sync/src/sync.ts:127-177 | the same for one operation from any of its phases |
| `SyncClient.RollbackIsRefused` | packages/brain-sync/src/sync.ts:71-76 | a genuine but older manifest ends pull and push after that one read, with nothing imported or written |
| `SyncClient.PullMergesIff` | packages/brain-sync/src/sync.ts:68-106 | a pull merges exactly when a newer manifest, its object and two answered calls are offered; it then fetches that object, imports its text and remembers the generation |
| `SyncClient.UndisturbedPush` | packages/brain-sync/src/sync.ts:147-181 | an undisturbed push writes nothing when the remote has its export, and otherwise stores the sealed export and then the next generation's manifest that names and hashes it |
| `ConditionalStore.LocalTransport.PutObject` | packages/brain-sync/src/transport.ts:96-117 | a put writes, that key only, exactly when it answers an etag: an unsafe key is a transport error, a condition that does not hold a precondition failure, a failing disk its own error, and none of these changes anything |
| `ConditionalStore.LocalTransport.GetObject` | packages/brain-sync/src/transport.ts:84-94 | a get answers the current bytes with their etag, or nothing for a missing file, or a transport error for an unsafe key or a failing read |
| `ConditionalStore.LocalTransport.DeleteObject` | packages/brain-sync/src/transport.ts:119-126 | a delete removes that key, present or not, and nothing else, or is a transport error that removes nothing |
| `ConditionalStore.LocalTransport.ReadThenPut` | packages/brain-sync/src/transport.ts:84-117 | a put conditional on what was read lands exactly when the key is in the state that was read, whatever happened meanwhile |
| `ConditionalStore.AtMostOneWriterLands` | packages/brain-sync/src/transport.ts:100-113 | of two writers holding one etag the second lands only if the original bytes are back |
| `EditDistance.FillRow` | packages/context-gate/src/package-typosquat.ts:6-22 | from two correct rows the loop fills the next row of the alignment table, with a lower bound on its cells |
| `EditDistance.OsaDistanceAtMost` | packages/context-gate/src/package-typosquat.ts:1-28 | the three-row algorithm with its early exits answers the recursive optimal-string-alignment distance when it is within max, nothing otherwise, and zero for equal strings |
| `EditDistance.RowMinimaNeverFall` | packages/context-gate/src/package-typosquat.ts:16-22 | once a whole row is at least m, so is every later cell, although a transposition looks two rows back |
| `EditDistance.NextRowCellAtLeast` | packages/context-gate/src/package-typosquat.ts:16-19 | no cell is below a bound on the whole row above it |
| `EditDistance.LengthGapIsALowerBound` | packages/context-gate/src/package-typosquat.ts:3 | the difference in lengths never exceeds the distance |
| `EditDistance.PromiseKeptIff` | packages/context-gate/src/package-typosquat.ts:2-27 | the answer is the bounded distance exactly when max is not negative or the strings differ |
| `EditDistance.DistanceZeroIffEqual` | packages/context-gate/src/package-typosquat.ts:2 | distance zero is equality |
| `EditDistance.Symmetric` | packages/context-gate/src/package-typosquat.ts:6-20 | the distance does not depend on the order of the arguments |
| `EditDistance.NoAlignmentIsCheaper` | packages/context-gate/src/package-typosquat.ts:8-20 | no sequence of matches, edits and swaps of neighbours turns one string into the other for less than the computed distance |
| `EditDistance.SomeAlignmentCostsTheDistance` | packages/context-gate/src/package-typosquat.ts:8-20 | and one of exactly that cost exists |
| `EditDistance.OneErrorIsAtDistanceOne` | packages/context-gate/src/package-typosquat.ts:8-20 | a wrong character, an extra one, a missing one and two neighbours exchanged are each at distance one |
| `EditDistance.NearestKnownName` | packages/context-gate/src/package-typosquat.ts:30-43 | a hint is given exactly when the name is unknown and some known name is at distance one, and it is a least such name |
| `Base32.ShiftInKeepsLowBits` | packages/brain-sync/src/base32.ts:5-19 | shifting into the 32-bit accumulator loses high bits only: the pending low bits and the new ones are intact |
| `Base32.ExtractSplitsLowBits` | packages/brain-sync/src/base32.ts:5-37 | the unsigned shift and mask take exactly the leading pending bits and leave the rest |
| `Base32Codec.Base32Encode` | packages/brain-sync/src/base32.ts:5-19 | the bit-accumulator loop computes the encoding defined on whole numbers |
| `Base32Codec.Base32Decode` | packages/brain-sync/src/base32.ts:21-37 | the decoding loop computes the decoding defined on whole numbers, and refuses exactly the texts with a symbol outside the alphabet |
| `Base32Codec.ValueOfEncoding` | packages/brain-sync/src/base32.ts:5-19 | the symbols spell the bytes' number padded with zero bits to a multiple of five (RFC 4648 section 6, without the padding of section 3.2) |
| `Base32Codec.ValueOfDecoding` | packages/brain-sync/src/base32.ts:21-37 | the bytes spell the symbols' number without its spare low bits |
| `Base32Codec.RoundTrip` | packages/brain-sync/src/base32.ts:5-37 | decoding an encoding gives the bytes back, for every byte string |
| `Base32Codec.ReencodingIff` | packages/brain-sync/src/base32.ts:5-37 | a text is the encoding of what it decodes to exactly when its length and spare bits are canonical |
| `Base32Codec.FoobarIsMzxw6ytboi` | packages/brain-sync/test/base32.test.ts:15 | foobar encodes to MZXW6YTBOI, as in section 10 of RFC 4648 |
| `RecoveryCode.RecoveryRoundTrip` | packages/brain-sync/src/keyfile.ts:44-66 | every 32-byte key survives encoding to a grouped, checksummed code and back |
| `RecoveryCode.AcceptedIff` | packages/brain-sync/src/keyfile.ts:50-65 | a code decodes to a key exactly when, dashes and spaces removed and in upper case, its symbols carry the key and its checksum |
| `RecoveryCode.AcceptedIsAKey` | packages/brain-sync/src/keyfile.ts:53-65 | whatever is accepted is 32 bytes |
| `RecoveryCode.SameKeySameSymbols` | packages/brain-sync/src/keyfile.ts:50-65 | two accepted codes for one key agree in 54 of their 55 symbols; the last has three free bits |
| `RecoveryCode.CompactUndoesGrouping` | packages/brain-sync/src/keyfile.ts:47-51 | removing dashes and spaces undoes the grouping into fives |
| `RecoveryCode.AcceptedSpellsIff` | packages/brain-sync/src/keyfile.ts:44-66 | a code is accepted for a key exactly when it spells the key and then bytes 0 and 1 of its digest, and the key's own code spells that |
| `RecoveryCode.GroupsOfFive` | packages/brain-sync/src/keyfile.ts:47 | a code has a dash after every five symbols and the symbols in order between them |
| `ContextSelection.BuildIndexes` | packages/context-pruner/src/select.ts:97-112 | the name index answers with the first candidate that has or exports the name, the qualified index with the first of that path and name |
| `ContextSelection.EdgesStayInside` | packages/context-pruner/src/select.ts:45-51 | call edges lead to candidates only, by qualified name or by the fallback on the bare name |
| `ContextSelection.EdgeLeadsByPosition` | packages/context-pruner/src/select.ts:36-51 | a resolved edge leads to the first candidate whose path and name spell it, and when there is none to the first that answers to the part after the first # |
| `ContextSelection.EdgesByPosition` | packages/context-pruner/src/select.ts:114-128 | the walks follow exactly a block's resolved edges when it has them, and its names otherwise, callees and callers alike |
| `ContextSelection.TargetsInEdgeOrder` | packages/context-pruner/src/select.ts:117-127 | targets come in the order of the edges |
| `ContextSelection.Pack.Add` | packages/context-pruner/src/select.ts:75-86 | a block is added once, when forced or when it fits limit and tokens, and the running totals stay true |
| `Reachability.ClosedHoldsReachable` | packages/context-pruner/src/select.ts:238-251 | a set closed under the edges holds everything reachable from its members |
| `ImpactSelection.FinishedWalkIsTheClosure` | packages/context-pruner/src/select.ts:235-251 | a breadth-first walk in which every block found has had its turn has found exactly the root and its transitive callers |
| `ImpactSelection.SelectImpact` | packages/context-pruner/src/select.ts:166-254 | included and excluded together are exactly the root and its transitive callers, each once, whatever the budget; they come in the order of a breadth-first walk, each included exactly when it fits behind those before it; the included stay within the budget and no excluded block would fit |
| `PackSelection.SelectPack` | packages/context-pruner/src/select.ts:63-155 | the pack is the forced blocks, then the relevant ones as they fit, most relevant first, then callees as they fit, breadth first and in edge order; it stays within the larger of budget and forced part, leaves out no relevant block or callee of an included one that would still fit, and holds only blocks reached from a seed inside the pack |
| `PackSelection.AssembledPackIsSound` | packages/context-pruner/src/select.ts:88-143 | whatever is put together in that order is maximal, within its budget and rooted in the forced and relevant blocks |
| `PackSelection.ExcludedByReason` | packages/context-pruner/src/select.ts:145-152 | every candidate left out is reported, over the budget when its score is at least 0.05 and irrelevant otherwise |
| `CacheModel.SimulateCacheCost` | packages/bench-replay/src/cache-model.ts:100-154 | the simulator with its hash map computes the direct specification, and refuses a bytes-per-token that is not positive |
| `CacheModel.ReadEndIsTheRead` | packages/bench-replay/src/cache-model.ts:132-144 | the read is the longest segment boundary whose prefix text some earlier request cached |
| `CacheModel.BreakEndIsTheLastBreak` | packages/bench-replay/src/cache-model.ts:143-145 | creation ends at the last breakpoint |
| `CacheModel.MarksAreTheCachedPrefixes` | packages/bench-replay/src/cache-model.ts:138-151 | under a collision-free digest the stored marks are exactly the prefixes ending at a breakpoint |
| `CacheModel.NoByteIsLost` | packages/bench-replay/src/cache-model.ts:147-149 | read, creation and input, creation possibly negative, sum to the request up to one and a half tokens of rounding a request |
| `CacheModel.ChargedOnceIff` | packages/bench-replay/src/cache-model.ts:132-149 | every byte of a request is charged exactly once, and creation is not negative, exactly when no earlier request cached a prefix that ends past the request's own last breakpoint |
| `CacheModel.ReadPastBreakIsChargedTwice` | packages/bench-replay/src/cache-model.ts:142-149 | a request without breakpoints that repeats a cached one is charged its two bytes as read and as input, with minus two of creation |
| `CacheModel.FiguresByPosition` | packages/bench-replay/src/cache-model.ts:132-149 | at any rate the bytes before the longest cached prefix end are charged as read, those from there to the last breakpoint as creation, those after it as input |
| `CacheModel.FiguresCountBytes` | packages/bench-replay/src/cache-model.ts:147-149 | at one byte per token, when every byte is charged once, the three figures count the bytes of the three parts |
| `CacheModel.ColdRequestReadsNothing` | packages/bench-replay/src/cache-model.ts:132-147 | a request of which no prefix is cached reads nothing, at any rate |
| `CacheModel.ThreeFigures` | packages/bench-replay/src/cache-model.ts:114-151 | two bytes cached, then a request of nine that reads them, caches three and ends with four: read 2, creation 5, input 4 in all |
| `CacheModel.RepeatedPrefixIsRead` | packages/bench-replay/src/cache-model.ts:124-142 | a later request that repeats an earlier one reads at least up to the earlier one's last breakpoint |
| `RequestRendering.SegmentsOf` | packages/bench-replay/src/cache-model.ts:70-98 | a request renders as tools, system without billing headers, messages, in that order with their breakpoints |
| `CacheNamespace.RunMarkersDifferInOneDigit` | packages/bench-replay/src/transform.ts:464-477 | the markers of the four arm runs have one length and differ in one digit, two of them only if order or arm does |
| `CacheNamespace.MarkerBlockHasText` | packages/bench-replay/src/transform.ts:523-529 | the marked block always has text, and there is none only if no block is prompt text |
| `CacheNamespace.UnmarkUndoesMark` | packages/bench-replay/src/transform.ts:568-569 | removing a marker from marked text gives the text back, whatever it holds |
| `CacheNamespace.StripUndoesNamespaceIff` | packages/bench-replay/src/transform.ts:531-592 | stripping restores a namespaced body exactly when its system prompt is not empty text, its marked block has text, and no earlier block already starts with the prefix |
| `CacheNamespace.EmptySystemIsLost` | packages/bench-replay/src/transform.ts:571-577 | an empty system prompt comes back as none |
| `CacheIsolation.NamespacedIsMarked` | packages/bench-replay/src/transform.ts:531-560 | a body with no breakpoint and no recorded marker ahead of the chosen block renders with the slot's marker before its first breakpoint |
| `CacheIsolation.OtherSlotsCacheNothing` | packages/bench-replay/src/transform.ts:451-463 | a request of one slot never caches a prefix of a request of another slot |
| `CacheIsolation.OwnRunSetsThePrice` | packages/bench-replay/src/transform.ts:451-463 | a request costs what it would cost after the earlier requests of its own slot alone |
| `CacheIsolation.RunsDoNotInteract` | packages/bench-replay/src/transform.ts:451-463 | any interleaving of namespaced runs costs exactly the sum of the runs each from a cold cache |
| `CacheIsolation.SecondRunStartsCold` | packages/bench-replay/src/transform.ts:451-463 | two runs one after the other cost the sum of both from cold |
| `CacheIsolation.BreakpointAheadLeaks` | packages/bench-replay/src/transform.ts:523-529 | with a breakpoint ahead of the marked block, on a tool or on a system block without text that is passed over, the run of any other slot reads what the first cached |
| `CacheIsolation.IsolatedIffNoBreakpointAhead` | packages/bench-replay/src/transform.ts:451-463 | for every body whose texts ahead of the marker are clean, no slot reads from another exactly when no breakpoint lies ahead of the marked block |
| `PrepareArms.Saver.Decide` | packages/bench-replay/src/transform.ts:246-290 | the memo asks the saver about an id once, with the text shown, keeps its answer for good, and its counters, byte totals and violations are exactly those of the calls asked about |
| `PrepareArms.CollectToolCalls` | packages/bench-replay/src/transform.ts:47-61 | every id maps to its last tool_use block in the request |
| `PrepareArms.LastToolUseWins` | packages/bench-replay/src/transform.ts:49-58 | the call an id stands for is its last tool_use block in the request, in the order of messages and blocks |
| `PrepareArms.UnusedIdsHaveNoCall` | packages/bench-replay/src/transform.ts:49-58 | an id without a tool_use block stands for no call |
| `PrepareArms.TransformRequest` | packages/bench-replay/src/transform.ts:207-236 | for any saver the request becomes its rewriting under the decisions taken, or the call fails because the saver did or an id has no tool_use |
| `PrepareArms.RewriteToolResult` | packages/bench-replay/src/transform.ts:70-91 | the saver is shown the text if there is any, and the block becomes its rewriting under the decision |
| `PrepareArms.ReplacementIsTheWholeText` | packages/bench-replay/src/transform.ts:70-91 | after a replacement the text blocks read as exactly the replacement and the other blocks are untouched, in order |
| `PrepareArms.MegasaverArmShowsTheAnswers` | packages/bench-replay/src/transform.ts:70-91 | in the megasaver arm every tool result with text reads as exactly what the saver answered for its call, in place of the string or of its first text part, and as recorded when it was passed through |
| `PrepareArms.WithoutTextsPartByPart` | packages/bench-replay/src/transform.ts:88-90 | the parts that are not text are kept one by one, in order |
| `PrepareArms.AskedByPosition` | packages/bench-replay/src/transform.ts:246-290 | the saver is asked about exactly the ids that have a tool result with text, and is shown the text of the first |
| `PrepareArms.CapGeneration` | packages/bench-replay/src/transform.ts:336-370 | a request with a thinking budget is refused; any other gets the cap and loses global cache scopes only |
| `PrepareArms.CappingIsMinimal` | packages/bench-replay/src/transform.ts:336-370 | capping asks for one token and takes global scope from system blocks; everything else is as recorded |
| `PrepareArms.PrepareBothArms` | packages/bench-replay/src/transform.ts:392-434 | for any saver, even one that answers differently each time: it is asked about each id with text once, at its first text, in order of appearance; the megasaver arm shows those answers and the baseline arm the recording; the counts are those of these calls, every applied one a byte smaller; each kind of refusal has its cause |
| `PrepareArms.CompressionsShrink` | packages/bench-replay/src/transform.ts:263-286 | without violations the transformed bytes are below the original ones by at least the number applied |
| `PrepareArms.NoViolationsIff` | packages/bench-replay/src/transform.ts:138-146 | there are no violations exactly when every replacement holds the footer's opening words and is smaller than its text |
| `PrepareArms.RewritingKeepsPrefixes` | packages/bench-replay/src/transform.ts:216-235 | one table of decisions rewrites a prefix of the messages to a prefix |
| `PrepareArms.LaterDecisionsChangeNothing` | packages/bench-replay/src/transform.ts:252-288 | decisions taken later do not change what earlier requests were rewritten to |
| `PrepareArms.MegasaverArmGrowsWithTheRecording` | packages/bench-replay/src/transform.ts:207-290 | if one recorded request's messages extend another's, so do the megasaver arm's |
| `PrepareArms.ArmsDifferOnlyInToolResults` | packages/bench-replay/src/transform.ts:200-236 | with tool results blanked out the two arms are identical |
| `RecoveryBreakeven.Collect` | packages/bench-replay/src/recovery-breakeven.ts:105-128 | the expandable outputs are the ids whose first appearance shrank, each once, with that appearance's sizes |
| `RecoveryBreakeven.CountAffordable` | packages/bench-replay/src/recovery-breakeven.ts:135-141 | the loop stops at the first output the saving cannot cover |
| `RecoveryBreakeven.Calculate` | packages/bench-replay/src/recovery-breakeven.ts:88-159 | arms of different lengths are refused; otherwise the saving, the descending outputs and the break-even count, zero when nothing was saved |
| `RecoveryBreakeven.FrontIsTheDearestChoice` | packages/bench-replay/src/recovery-breakeven.ts:130-141 | by exchange, no choice of n outputs costs more than the n first of the descending order |
| `RecoveryBreakeven.BreakevenIsSafeAndTight` | packages/bench-replay/src/recovery-breakeven.ts:133-158 | any choice of at most breakevenCount outputs is paid for by the saving exactly when the saving is not negative, and one more can cost too much when not all fit |
| `RecoveryBreakeven.CostIsTheRawContentRidden` | packages/bench-replay/src/recovery-breakeven.ts:105-128 | an output is listed exactly when it shrank where it first appears, and costs its raw bytes once in every later request |
| `RecoveryBreakeven.SavingIsTheDifference` | packages/bench-replay/src/recovery-breakeven.ts:97-100 | the saving is the bytes of the baseline arm less those of the megasaver arm |
| `CodeTruth.AnchorStandsIff` | packages/core/src/code-truth.ts:51-77 | an anchor survives exactly when no cited file is gone without a rename and every cited symbol that can be judged has a block of its name with the anchored content |
| `CodeTruth.ForeignClosesAreNeverTouched` | packages/core/src/code-truth.ts:456-511 | over any history of verify runs and other writers, even between a run's snapshot and its batch, the ownership flag is right and a close by another writer never changes |
| `CodeTruth.HealReopensOwnClosesOnly` | packages/core/src/code-truth.ts:487-500 | a run that finds the anchor standing again reopens the row exactly when verify had closed it |
| `CodeTruth.ContradictionCloses` | packages/core/src/code-truth.ts:467-486 | a newly contradicted row is stale, contradicted and closed: at its old time if it was closed, now if it was open |
| `CodeTruth.FirstFailureIsReported` | packages/core/src/code-truth.ts:51-77 | what is reported of a contradicted anchor is its first deleted file, or else its first symbol that is missing or has changed content |
| `CodeTruth.VerdictIsRecorded` | packages/core/src/code-truth.ts:463-511 | a run records its verdict with head and time on the row it finds: a new contradiction with its evidence line, a heal with its line, a first verification of this head without one, and nothing otherwise; earlier evidence stays |
| `CodeTruth.RewriteIsEffective` | packages/core/src/code-truth.ts:439-454 | without rename chains the repoints applied in turn move each cited path one step |
| `CodeTruth.MovedAnchorIsJudgedAlike` | packages/core/src/code-truth.ts:51-77 | moving an anchor along the renames does not change its verdict |
| `CodeTruth.IdempotentIffSettled` | packages/core/src/code-truth.ts:518-540 | for one fixed record of the repository, as the planner takes it: a second plan and patch writes nothing, for every row, exactly when every rename target in the record is there and is no rename source |
| `CodeTruth.UnsettledRunsWriteAgain` | packages/core/src/code-truth.ts:439-540 | for every other record a row that is written twice under it; a run gathers its own record, see CodeTruthRepeat |
| `CodeTruthGit.GatherRenames` | packages/core/src/code-truth.ts:261-293 | renames are those of the cited paths that are missing at HEAD, by the diffs of the heads that cite a missing path, a later head overriding |
| `CodeTruthGit.Attribute` | packages/core/src/code-truth.ts:353-388 | the cited paths of contradicted rows are attributed to the first commit found, each path once |
| `CodeTruthGit.GatherRepo` | packages/core/src/code-truth.ts:238-393 | the record a run plans on, built from the answers of git and the worktree to the questions its candidates raise |
| `CodeTruthGit.RenamesByPosition` | packages/core/src/code-truth.ts:261-285 | a path is renamed exactly when it is cited, missing at HEAD and the source of a line of the diffs read, and its target is that of the last such line |
| `CodeTruthGit.AttributionByPosition` | packages/core/src/code-truth.ts:353-388 | a path is attributed to the first commit git names when asked about the contradicted rows' paths, each from its row's head |
| `CodeTruthGit.RenamesAreMissing` | packages/core/src/code-truth.ts:261-293 | with truthful diffs every renamed path is a cited missing one, and its target is at HEAD and is not renamed |
| `CodeTruthRepeat.RecordTellsTruth` | packages/core/src/code-truth.ts:51-77 | a candidate's verdict under the gathered record is what git and the worktree say of its own anchor |
| `CodeTruthRepeat.NoRenamesAgain` | packages/core/src/code-truth.ts:261-293 | a second run at the same git finds no renames: every path it could rename was moved by the first |
| `CodeTruthRepeat.SecondRunIsIdleIff` | packages/core/src/code-truth.ts:206-543 | whatever rows, scope, listing order and other writers there are, a second run at the same git and worktree, with its own record, writes nothing, exactly when diffs against HEAD name targets that are at HEAD |
| `CodeTruthRunner.VerifyAnchors` | packages/core/src/code-truth.ts:84-131 | the loop files every row by its own verdict, keeping the order, with its repoints in citation order |
| `CodeTruthRunner.PlanMovesEachRow` | packages/core/src/code-truth.ts:103-108 | the repoints of a row can be read back from the joint list |
| `CodeTruthRunner.PlanIsSound` | packages/core/src/code-truth.ts:94-130 | every listed id belongs on its list by its own row, and every row is on the list its verdict asks for |
| `CodeTruthRunner.BuildBatch` | packages/core/src/code-truth.ts:513-539 | the batch holds exactly the rows something would be written to, once, each with its own repoints and action |
| `CodeTruthRunner.MemoryRegistry.ApplyMutations` | packages/core/src/registry.ts:457-479 | every mutation patches the row found now and rows that vanished are skipped; exactly when a patched row fails the schema nothing at all is written; no other row changes |
| `CodeTruthRunner.MemoryRegistry.RunVerify` | packages/core/src/code-truth.ts:206-543 | the run gathers its record from git's answers, each row in scope becomes the patch of what it is now under what was planned on the snapshot, others are left alone, nothing is written when git does not answer, and a run with nothing to write makes no batch; it throws, leaving every row as it is, exactly when the schema refuses a row it would write |
| `Supervisor.ProcessNextTask` | packages/agent-office/src/supervisor.ts:73-283 | for every pattern of failing calls: nothing to do; a rejection, which leaves the earliest task running exactly when the reads and the task's write succeed and the agent's write fails, failed when the same happens to a denied task, and otherwise changes nothing; or the earliest queued task settled done or failed with agent, sessions and audit as the failures allow; a run is started exactly when there is permitted work and the first five calls succeed, and it is closed by its process's exit exactly when no later call fails |
| `Supervisor.DoneIff` | packages/agent-office/src/supervisor.ts:193-234 | a started task is done, with its agent idle, exactly when no call of the run failed and the process exited with code zero; its exit code is the process's own when no call failed |
| `Supervisor.OneFailingWriteStrands` | packages/agent-office/src/supervisor.ts:110-114 | one idle agent, one queued task and a failing fifth call leave that task running |
| `Supervisor.StuckIffAllLost` | packages/agent-office/src/supervisor.ts:235-250 | an agent is left working, or a task running, exactly when every save that would have settled it failed |
| `AgentOffice.Office.Launch` | packages/agent-office/src/supervisor.ts:158-170 | a process may be started only with the session open, the spawn on record, the task running, the agent working and the role's mode permitted |
| `Supervisor.StartProcess` | packages/agent-office/src/supervisor.ts:124-170 | session, spawn row and launch are there exactly as far as the calls succeeded, in that order; a resumed session is the one on record; the exit handed on is the process's own |
| `Supervisor.SettleExit` | packages/agent-office/src/supervisor.ts:195-234 | task and agent are each attempted once after the session has ended, done exactly for exit code zero, with the exit code and the process's own session id; a settled result means every write landed, the terminal audit row last |
| `Supervisor.CleanUp` | packages/agent-office/src/supervisor.ts:235-283 | after a failure the agent and the task are each attempted whatever the other does, an open session is ended or recorded lost, and a recorded spawn gets its terminal row or its loss |
| `Supervisor.RanTaskLeavesNothingStuck` | packages/agent-office/src/supervisor.ts:116-120 | a settled call keeps the rule that whatever is working or running has a failed save to show for it |
| `Supervisor.SettledLeavesTheQueue` | packages/agent-office/src/supervisor.ts:84-113 | a settled call takes exactly its task off the queue and touches no other agent |
| `Supervisor.DrainAgent` | packages/agent-office/src/supervisor.ts:286-297 | draining ends, with the queued count as measure; it processes queued tasks once each, earliest first, all but the last done, and leaves the queue empty, the agent not runnable, or a failed save |
| `Supervisor.DrainKeepsDrained` | packages/agent-office/src/supervisor.ts:299-329 | draining one agent leaves every other drained agent drained |
| `Supervisor.StepKeepsOthers` | packages/agent-office/src/supervisor.ts:299-329 | one call for an agent leaves the row and the tasks of every other agent as they were |
| `Supervisor.RunWorkspace` | packages/agent-office/src/supervisor.ts:286-329 | drains interleaved call by call, as many at a time as there are agents up to maxConcurrent and never more: in the end each agent was drained once, taking its queue earliest first, or one of its own calls threw, or it was never started and nothing of it changed, which happens only when every slot was lost to a call that threw; with no slots nothing happens |
| `EmbeddingIndex.MemoryIndex.EmbedMemoryEntries` | packages/core/src/embed-memory.ts:134-164 | the vectors become those of the current memories, carried where id and content hash are unchanged; carried is the number of those, embedded the rest |
| `EmbeddingIndex.MemoryIndex.BuildMemoryIndex` | packages/core/src/embed-memory.ts:175-199 | vectors and hashes become those of the current set, with the same counts |
| `EmbeddingIndex.SidecarIsTheLatestSet` | packages/core/src/embed-memory.ts:134-199 | after any builds over any memory sets the sidecar is what embedding the latest set from scratch gives: its ids exactly, no stale vector |
| `EmbeddingIndex.OnlyChangesAreEmbedded` | packages/core/src/embed-memory.ts:145-153 | a memory is carried exactly when the previous build held it with the same text |
| `EmbeddingIndex.RebuildCarriesEverything` | packages/core/src/embed-memory.ts:145-153 | rebuilding an unchanged set embeds nothing |
| `Retention.ChunkSetKeyIsInjective` | packages/content-store/src/store.ts:304-310 | the key of slash-free segments is no other address's key, whatever that address holds |
| `Retention.ContentStore.PruneOlderThan` | packages/content-store/src/store.ts:312-392 | the sweep leaves the store without the expired files and the directories this empties, and counts the files deleted |
| `Retention.SweptPaths` | packages/content-store/src/store.ts:339-377 | a file survives exactly when it is not a chunk set, is kept, is not older by both clocks, or cannot be read; its content is unchanged |
| `RetentionHolds.HeldChunkSetKeys` | packages/context-gate/src/retention-prune.ts:15-48 | the keys are those of the available pinned or manually held records in the listings that succeed, of well-named workspaces; a listing that fails shows none, and a bad record file in one that succeeds is an error |
| `RetentionHolds.KeptIffProtected` | packages/context-gate/src/retention-prune.ts:32-45 | a live hold keeps its own workspace, session and id and never another session's copy; an unscoped one keeps every copy |
| `RetentionHolds.PruneChunkSetsHonoringPins` | packages/context-gate/src/retention-prune.ts:50-59 | the prune deletes exactly the chunk files older by both clocks and not protected by a hold the listings show, and nothing at all when a listed record file is bad |
| `RetentionHolds.HoldsAreHonouredIffListed` | packages/evidence-ledger/src/store.ts:119-146 | a prune honours every hold on disk, whatever the records and the stored files, exactly when every workspace's records can be listed, and the workspaces themselves unless there are none |
| `RetentionHolds.UnlistedPinIsDeleted` | packages/context-gate/src/retention-prune.ts:15-48 | when one of these listings fails a pinned, expired chunk file of that workspace is deleted |
| `ChildCapture.StateTellsTheHistory` | packages/context-gate/src/run-command.ts:142-177 | after any order of events the captured bytes are the bounded prefix of what was written before the timer fired, and the bound reported is the timer if it fired, else the byte bound if it was reached |
| `ChildCapture.SettlesOnce` | packages/context-gate/src/run-command.ts:179-201 | the first error or close decides the outcome for good; an exit code is reported exactly when no bound was hit |
| `ChildCapture.SignalsTellTheHistory` | packages/context-gate/src/run-command.ts:148-175 | SIGTERM is sent once for each bound that is hit, SIGKILL once for each grace period that runs out |
| `ChildCapture.LeftoverTimerIff` | packages/context-gate/src/run-command.ts:148-175 | at any time after the call has settled a kill timer is running exactly when the byte bound was reached and its timer has not gone off, unless it was reached before settling and the time bound was not |
| `ChildCapture.OverrunThenTimeoutLeavesATimer` | packages/context-gate/src/run-command.ts:148-175 | a byte too many, then the timer, then the close leave the first kill timer running |
| `ChildCapture.OverrunAfterSettlementStartsATimer` | packages/context-gate/src/run-command.ts:158-186 | after an error the output that still comes reaches the byte bound and starts a timer |
| `ChildCapture.ChildRun.OnData` | packages/context-gate/src/run-command.ts:158-175 | appends up to the bound, then stops and kills |
| `GapMarkers.ReturnedParts` | packages/context-gate/src/record-output.ts:157-198 | the walk builds the specified rendering |
| `GapMarkers.RenderingKeepsAll` | packages/context-gate/src/record-output.ts:175-196 | every excerpt is rendered once, ordered by filtered line |
| `GapMarkers.NoLineIsLost` | packages/context-gate/src/record-output.ts:188-197 | every raw line is in an excerpt or in a marker |
| `GapMarkers.UnaddressedNamesNoLine` | packages/context-gate/src/record-output.ts:180-186 | without raw line numbers no marker names a line; the only remark comes last, when there are excerpts |
| `GapMarkers.MarkersAreTrueIff` | packages/context-gate/src/record-output.ts:188-197 | of any excerpts the walk is given: no marker names a rendered line exactly when no excerpt that comes later in the filtered text steps back in the raw output into a gap |
| `GapMarkers.MonotoneExcerptsHaveTrueMarkers` | packages/context-gate/src/record-output.ts:188-197 | when the raw order agrees with the filtered order the markers are exactly the lines left out |
| `LineProvenance.CollapseRepeatedLines` | packages/output-filter/src/normalize.ts:33-57 | the loop keeps the first of each run and adds a marker that stands for the whole run |
| `LineProvenance.CollapseSimilar` | packages/output-filter/src/normalize.ts:104-158 | the loop folds runs of three or more unguarded lines of one template into first, marker and last |
| `LineProvenance.FilteringLosesNoLine` | packages/output-filter/src/normalize.ts:33-158 | after both passes the lines' raw spans are in order, overlap or adjoin, and reach from the first raw line to the last |
| `LineProvenance.ChunkByLines` | packages/output-filter/src/chunk.ts:3-16 | the pieces are consecutive, of so many lines each and the last of what is left, hold the text of their ranges, and cover it |
| `LineProvenance.MarkedIffOutOfRange` | packages/output-filter/src/types.ts:170-193 | whatever chunks of the filtered text are kept, in whatever order, a raw line is named by a marker exactly when it is outside their ranges |
| `LineProvenance.MarkersAreExactIff` | packages/output-filter/src/types.ts:170-193 | the markers name exactly the raw lines no kept text shows, just when every raw line in a kept range is shown by a chunk whose text holds a line that stands for it |
| `LineProvenance.DeliveredMarkersAreExact` | packages/output-filter/src/chunk.ts:3-16 | chunks that hold the text of their ranges, like all pieces by lines, have exact markers, whichever are kept and in whatever order |
| `LineProvenance.CutMarkersAreExactIff` | packages/output-filter/src/types.ts:162-169 | the one chunk cut to the budget has exact markers just when it is cut at the end of a line |
| `GoTestOmission.ParseGoTest` | packages/output-filter/src/parsers/go-test.ts:25-81 | the loops yield the chunks of the failing blocks and, beside them, the omission chunk with the count of passing blocks and preamble lines and the hull from the first omitted line to the last; dropped counts each passing block and the preamble |
| `GoTestOmission.GoTestMarkersAreExactIff` | packages/output-filter/src/parsers/go-test.ts:60-80 | of any excerpts of a go-test output the markers are exact just when the omission chunk is not kept, or is itself the one line it stands for |
| `GoTestOmission.SilentIff` | packages/output-filter/src/parsers/go-test.ts:36-59 | with the omission chunk kept, a raw line is neither shown nor named exactly when it is in the hull and in no kept block, unless the output begins with the text of the omission chunk |
| `GoTestOmission.LogLinesAreSilent` | packages/output-filter/src/parsers/go-test.ts:36-79 | six lines with a failing block between two passing ones: the passing lines are silent, and all six when the budget leaves the failing block out |
| `RecoveryFooter.SizeFooter` | packages/context-gate/src/record-output.ts:302-326 | the size stated is the delivered one exactly when the widths of its numbers settle, from the text to the first size or from that to the second, and in an admitted output it is off by one byte at most |
| `RecoveryFooter.FooterLength` | packages/context-gate/src/recovery-footer.ts:37-52 | besides a fixed part the footer's bytes are the digits of the size, of its tokens, and the width of the percentage |
| `RecoveryFooter.DriftIsAtMostOne` | packages/context-gate/src/record-output.ts:309-337 | the drift the source accepts is one byte at most in any output that saves 256 bytes and 15 percent |
| `RecoveryFooter.OffByOne` | packages/context-gate/src/record-output.ts:309-325 | 2048 raw bytes in two chunks and 73 bytes of text: 397 is stated, 398 is delivered and admitted |
| `ShownExcerpts.ShownIndex.ApplyShownDedup` | packages/context-gate/src/shown-index.ts:103-124 | one call suppresses and records as specified, on reads and writes that may fail |
| `ShownExcerpts.NothingIsFalselySuppressed` | packages/context-gate/src/shown-index.ts:53-96 | whatever reads and writes of the index fail, a suppressed excerpt was shown before from a chunk set the call names, or by the call itself, and kept plus suppressed is the whole batch |
| `ShownExcerpts.EachTextIsShownOnce` | packages/context-gate/src/shown-index.ts:35-96 | when they all succeed no text is shown twice in a session |
| `CoChange.ParseNumstat` | packages/context-pruner/src/cochange.ts:52-82 | every ordered pair of files is counted once per commit of at most fifty rows that touches both, churn counts every row, the peak is the largest count |
| `CoChange.CoChangeStrength` | packages/context-pruner/src/cochange.ts:90-104 | the strength is in [0, 1], zero exactly without a shared commit, one exactly at the peak |
| `CoChange.SharedCommitsAreSymmetric` | packages/context-pruner/src/cochange.ts:67-74 | the counts are symmetric and a file is never its own partner |

## Left out

- SyncSafety.RemoteIsAlwaysReadable: the reset command is not a step, the conditional put is one atomic step (RFC 9110 sections 13.1.1 and 13.1.2), and object keys and etags are fresh per write
- SyncClient.ImportsOnlyMoveForward: a last-seen write that is skipped without an error is a step of SyncWorld, not of SyncClient, where a write that fails is reported
- ConditionalStore.LocalTransport.PutObject: which keys are safe is an injected predicate, and no other process acts between the reading and the writing of the file
- encryption, SHA-256, JSON and schema validation: injective or inverse functions; the import and export of a brain are injected with their law
- the S3 client, the status and reset commands, `updatedAt` and clocks of brain-sync
- RecoveryCode.AcceptedIff: upper-casing is injected per character, so a locale rule that looks at neighbours is outside it
- EditDistance.NearestKnownName: the order of names is any strict order, `localeCompare` being locale-defined
- PackSelection.SelectPack: block ids are distinct, as the index makes them; the `dependencyRelevance` flag written into a reached block is not modelled
- ImpactSelection.SelectImpact: the same two limits as SelectPack
- CacheModel.SimulateCacheCost: bytes-per-token and the rounded quotients are real numbers; the digest has no collisions
- CacheIsolation.RunsDoNotInteract: content that is a bare JSON number or boolean, which the recorder does not write, is not rendered
- PrepareArms.PrepareBothArms: the scan for an already compressed recording is an injected predicate on text; the saver's answers are a script that may hold anything
- RecoveryBreakeven.Calculate: the rate is the count over the number of outputs and is not stored; sorting is a stable insertion, as the library's sort is stable
- CodeTruthRunner.MemoryRegistry.RunVerify: git's answers are tables (tree, renames by head, commits by head and path), so spawning it and parsing its text are outside; the questions for HEAD, for the blobs and for the targets' blobs may fail from run to run, a diff or a file that cannot be read counts as one answer of the state; two runs at once are not modelled; what the schema accepts is an injected predicate on the patched row
- CodeTruth.IdempotentIffSettled: the record is held fixed; what a run gathers the second time is in CodeTruthRepeat.SecondRunIsIdleIff
- CodeTruth.ForeignClosesAreNeverTouched: other writers close open rows and do nothing else to a row
- Supervisor.ProcessNextTask: timestamps, the transcript and the instruction are not modelled; a failing call changes nothing, and a killed process is an exit without a code
- Supervisor.RunWorkspace: one call of processNextTask is one step; two such calls touch disjoint rows, and their interleaving inside is not modelled
- EmbeddingIndex.SidecarIsTheLatestSet: a crash between the vector write and the hash write, duplicate ids in one set, and an embedder that returns fewer vectors than texts
- Retention.ContentStore.PruneOlderThan: file-system errors other than an unreadable file, and files added while the sweep runs
- RetentionHolds.PruneChunkSetsHonoringPins: files that change while it runs; exact when unscoped ids have no slash; a hand-edited id with one may keep more
- ChildCapture.SettlesOnce: bytes, not their decoding as text; a spawn that throws has no run
- GapMarkers.ReturnedParts: parts instead of the joined text
- LineProvenance.MarkersAreExactIff: masks and guards are injected, chunks are any ranges of the filtered text (the generic chunker and the go-test parser are modelled, the other parsers and ranking are not), and a compressor that rewrites lines takes the numbers away, which is the rendering without them
- LineProvenance.CutMarkersAreExactIff: the cut is at a character, the back-off from the middle of one being left out, and no line of the text holds a newline
- RecoveryFooter.SizeFooter: the percentage and the saved share are computed exactly, not in floating point
- CoChange.ParseNumstat: commits come already split into parsed rows
- file locks, fsync and rename durability, and concurrent processes on one store
- the brain import's merge by key, which would add an easy member; output filtering, ranking, tokenising, redaction, the block extractor, routing, views and command lines
