# Optimizer: verified models

Dafny models of the parts of the Optimizer writing workspace whose correctness is hardest to see from
the code, with proofs of what each part promises. `dafny verify dfyconfig.toml` checks everything.

| part | files | what is proved |
|---|---|---|
| Snapshot diff (`snapshot.rs`) | Lcs, EditGrid, TextScript, TextDiff, Patience, BlockAlignment, Comparison | The greedy text diff is shortest and spells both texts; the two alignment algorithms agree and are optimal; a comparison conserves blocks |
| Context compilers (`confirmed_context.rs`, `context-compiler.ts`) | ContextModel, ContextAllocation, ContextHost, ContextCheck, ContextClient, ContextRefinement, ContextAgreement, ContextScreening | What the allocator guarantees; the host check is exact; the client's compiler refines the host's, and exactly when it does not |
| Operation and review store (`operation.rs`, guards of `migration.rs`) | OperationModel, OperationSpec, OperationInvariants, OperationHistory, OperationEffects, OperationMetrics, OperationStore | All thirteen written-down invariants over every run; the shape of the logs; closed reviews stay closed; guards never fire |
| Document commands (`workspace_commands.rs`, tree check of `store.rs`) | Decimal, DocumentForest, DocumentOrder, DocumentTree, DocumentCommands, DocumentSafety, DocumentRoundTrip, DocumentOutdent, DocumentEffects, DocumentWorkspace | The forest stays well-formed over every run; an outdent undoes an indent, an indent undoes the outdent of a last child and of no other; when renumbering reads back |
| Hash payloads (`workspace_commands.rs`) | RootHash | The bytes are uniquely decodable and independent of input order |
| Summary order (`summary_worker.rs`) | DocumentTraversal, SummaryOrder | Complete on any parent data; the preorder on well-formed forests |
| Editor transactions (`transaction.ts`) | EditorTransaction | Independent of step order, undoable, locked blocks safe |
| Request authorizations (`model_gateway.rs`) | ModelGateway | One successful take per authorization, over every interleaving |

`Common`, `Sorting`, `Lex` and `Text` hold what the parts share: results, stable sorting as an ordered
permutation, the byte order of strings, trimming and byte lengths.

## How the models are built

Loops that update variables are methods with loops, objects that change are classes (the review
transaction and store, the workspace, the walk, the gateway), and each such method is proved equal to a
function or a predicate of its input; the theorems are lemmas about those. Tables are maps and
sequences, a transaction works on its own copy of the tables and replaces the store's only at the end.
Scores are reals in millionths, tier fractions whole hundredths, and token counts and revisions are
unbounded. Generated ids and key namespaces are parameters that must be new.

## Results that differ from what the code or its documentation suggests

- The two context compilers do not always agree: the client sorts by raw scores and by locale, the host
  by scores rounded to six places and by bytes. `SamePlanExactly` says for any budget when the plans
  agree, `SamePlanWhen` says it in terms of the candidates alone where all eligible ones fit, and
  `ClientRefinesHost` is the direction that holds whenever the orders agree. The candidates the host
  collects for the desktop have signals of two decimals, for which rounding changes nothing
  (`TwoDecimalsAgree`, `TwoDecimalsSamePlan`): there only the locale can tell the sides apart. Scores that rounding makes equal,
  as in `RoundingDisagrees`, need finer signals, which only other sources given to the `compile` of the
  library can supply.
- `{index:08}` keys keep their order for at most 10^8 siblings: `RekeyReadsBack`, `NinthDigitBreaksOrder`.
  The commands never get there because a batch holds at most 1000 mutations.
- An outdent followed by an indent restores the forest only for a last child, because the indent appends
  behind all children: `OutdentIndent`, with `MiddleChildMoves` and `FamilyHasMiddleChild` as a witness.
- An attempt with an empty remote request id passes `validate_attempts` and is then refused by the table:
  `AttemptCheckExactly`, and with a whole bundle `EmptyRemoteIdRefused`.
- `proposals_with_rejection` counts reject events, and a proposal can also be rejected by a decision:
  `CountsExactly` says what it counts, `RejectedWithoutEvent` is a run of calls where it misses one.
- A request id can be pending and active at the same time, because taking an authorization and starting
  its execution are two steps under different locks: `PendingAndActive`. `ApartExactly` says when it does
  not happen.

## Model

| member | source | states |
|---|---|---|
| `Lcs.AlignmentBound` | crates/optimizer-store/src/snapshot.rs:450-475 | No non-crossing pairing of equal elements is longer than the common-subsequence number, so "longest" below is meant among all pairings |
| `Lcs.Longest` | crates/optimizer-store/src/snapshot.rs:564-598 | A pairing of that length exists |
| `EditGrid.SlideIsFurthest` | crates/optimizer-store/src/snapshot.rs:625-639 | On a diagonal, the start taken from the two neighbours one edit earlier, followed by the run of matches, is the furthest point reachable with that many edits |
| `EditGrid.Overshoot` | crates/optimizer-store/src/snapshot.rs:640-644 | A point past the corner costs every overshooting step on top of the distance to the corner, on and off the grid |
| `EditGrid.CornerStops` | crates/optimizer-store/src/snapshot.rs:640-644 | When the corner is within reach, its diagonal passes the `>=` test, so the test cannot miss it |
| `TextDiff.Slide` | crates/optimizer-store/src/snapshot.rs:635-638 | The innermost loop stops at the first mismatch or edge of its diagonal and does not change the cost |
| `TextDiff.FillDiagonal` | crates/optimizer-store/src/snapshot.rs:625-639 | One inner iteration stores the furthest point of its diagonal in `v`, and changes no other cell |
| `TextDiff.ForwardStep` | crates/optimizer-store/src/snapshot.rs:622-645 | One value of d either stops, and then d is the edit distance and the point stored on the corner's diagonal is the corner, or leaves every diagonal at its furthest point and proves d smaller than the distance |
| `TextDiff.ForwardPass` | crates/optimizer-store/src/snapshot.rs:615-653 | The forward loop always stops, at exactly the edit distance (two lengths less twice the common subsequence) and with exactly the corner stored on the corner's diagonal although the test is `>=`; the saved trace holds the furthest points of every d; no index leaves `v` |
| `TextDiff.Backtrack` | crates/optimizer-store/src/snapshot.rs:655-694 | Walking the trace back gives a script that spells both texts with exactly that many edited characters and no empty piece |
| `TextDiff.CoalesceTextOps` | crates/optimizer-store/src/snapshot.rs:727-750 | Coalescing keeps both texts and the edit count and leaves no two neighbours of one kind |
| `TextDiff.MyersDiff` | crates/optimizer-store/src/snapshot.rs:600-696 | For all texts: never an error, the Equal and Delete pieces spell the old text, the Equal and Insert pieces the new one, the edited characters are the edit distance, neighbours differ in kind |
| `TextScript.NoShorterScript` | crates/optimizer-store/src/snapshot.rs:600-696 | No script that spells both texts edits fewer characters than the edit distance |
| `TextDiff.ReplaceBlockTexts` | crates/optimizer-store/src/snapshot.rs:706-716 | The whole-block fallback spells both texts |
| `TextDiff.DiffBlockTexts` | crates/optimizer-store/src/snapshot.rs:718-725 | Both texts always; a shortest script up to the size cap, whole replacement above it |
| `Patience.RankBounds` | crates/optimizer-store/src/snapshot.rs:519-542 | The rank the patience pass gives a pair bounds every chain ending there: with the number of tails, the longest chain |
| `Patience.Build` | crates/optimizer-store/src/snapshot.rs:519-542 | After the loop the tails increase, every pair has its rank, and every link goes to a pair one rank lower and smaller in both indices |
| `Patience.Follow` | crates/optimizer-store/src/snapshot.rs:544-556 | Following the links from a tail yields a strictly decreasing chain of pairs as long as its rank says |
| `BlockAlignment.BuildIndex` | crates/optimizer-store/src/snapshot.rs:485-489 | The index lists exactly the positions of every key, in increasing order |
| `BlockAlignment.MatchPairs` | crates/optimizer-store/src/snapshot.rs:491-499 | The pairs are all positions with equal keys, row by row and along each row, so each is listed once |
| `BlockAlignment.HashPath` | crates/optimizer-store/src/snapshot.rs:513-557 | The patience path returns a non-crossing pairing of equal keys, longest among all, duplicate keys included |
| `BlockAlignment.FillRow` | crates/optimizer-store/src/snapshot.rs:571-577 | One row of the table: every entry is the common-subsequence number of its two prefixes |
| `BlockAlignment.LcsByOrderKeyDp` | crates/optimizer-store/src/snapshot.rs:564-595 | The table and its traceback return a pairing of the same length |
| `BlockAlignment.LcsByOrderKey` | crates/optimizer-store/src/snapshot.rs:476-557 | Strictly increasing in both indices, equal keys, longest possible, on either side of the density switch |
| `Comparison.MergeBlocks` | crates/optimizer-store/src/snapshot.rs:347-421 | Read in order, the entries explain each block of both sides exactly once, with the kind and text diff its pair warrants |
| `Comparison.CountsAddUp` | crates/optimizer-store/src/snapshot.rs:423-440 | Removed plus paired is the size of side A, added plus paired the size of side B |
| `Comparison.ConservesA` | crates/optimizer-store/src/snapshot.rs:347-421 | The A-side ids of the entries, in order, are the sorted A blocks, each once |
| `Comparison.ConservesB` | crates/optimizer-store/src/snapshot.rs:347-421 | The B-side ids likewise |
| `Comparison.SortedAlignment` | crates/optimizer-store/src/snapshot.rs:331-345 | On sorted key lists the longest pairing takes every key the smaller of its two multiplicities |
| `Comparison.PairedIsShared` | crates/optimizer-store/src/snapshot.rs:331-345 | So the alignment of the two sides of a comparison pairs as many blocks as the smaller multiplicities of all keys add up to |
| `Comparison.SideIsAt` | crates/optimizer-store/src/snapshot.rs:331-345 | A side holds the blocks of its document and no others, each as often as it occurs, sorted by order key, equal keys in the order they came in |
| `Comparison.CompareDocuments` | crates/optimizer-store/src/snapshot.rs:325-448 | The two sides are exactly the blocks of the two documents in key order; ids conserved, the four counts add up to both sizes, and unchanged plus modified is the sum over keys of the smaller multiplicity |
| `ContextModel.CandidateOrdering` | crates/optimizer-host/src/confirmed_context.rs:405-414 | The candidate and packet comparators are total preorders for any total string order |
| `ContextAllocation.AllocateGuarantees` | crates/optimizer-host/src/confirmed_context.rs:415-460 | If the mandatory candidates fit: selected tokens are the running total and within budget, every candidate ends in exactly one of selected and dropped, every mandatory one is selected, anything dropped would still not fit |
| `ContextAllocation.TierSharesGuaranteed` | crates/optimizer-host/src/confirmed_context.rs:427-450 | If the mandatory candidates of every tier fit its cap, the first pass takes of each tier exactly what filling that cap alone takes, and borrowing takes none of it back |
| `ContextHost.HostTierShares` | crates/optimizer-host/src/confirmed_context.rs:415-460 | So for the host's own allocation, with the caps of any of the five profiles |
| `ContextAllocation.CapsFitBudget` | crates/optimizer-host/src/confirmed_context.rs:554-563 | The floored caps of all five profiles sum to at most the budget |
| `ContextHost.ExpectedCompilation` | crates/optimizer-host/src/confirmed_context.rs:375-489 | Fails exactly for an unknown operation or mandatory candidates over budget; otherwise the two orders are those of the plan and every candidate has the verdict of the plan |
| `ContextHost.Screen` | crates/optimizer-host/src/confirmed_context.rs:384-404 | The filter records every ineligible candidate with its reason and keeps exactly the eligible ones |
| `ContextCheck.ChecksExact` | crates/optimizer-host/src/confirmed_context.rs:240-353 | The tests taken together hold exactly for packets that match the plan |
| `ContextCheck.IndexCandidates` | crates/optimizer-host/src/confirmed_context.rs:245-253 | Reports a duplicate identity exactly when there is one, and otherwise indexes every candidate |
| `ContextCheck.ValidateCandidateCoverage` | crates/optimizer-host/src/confirmed_context.rs:240-353 | Accepts a packet if and only if it is the host's own plan: items and exclusions in order, field by field, token counts, reasons, scores within the tolerance, one mandatory target |
| `ContextCheck.IdentityInjective` | crates/optimizer-host/src/confirmed_context.rs:826-828 | The key of a hashed candidate determines reference and hash |
| `ContextClient.Compile` | packages/kernel/src/context-compiler.ts:108-214 | The compile loops return the client's plan: same screening, deduplication, target and budget failures, passes and sorts |
| `ContextRefinement.ClientRefinesHost` | packages/kernel/src/context-compiler.ts:108-214 | With unique references and agreeing orders the client's plan is the host's, items and exclusions with reasons, whatever order the candidates arrive in; the only other outcomes are a missing target and an unaffordable mandatory set |
| `ContextRefinement.ClientPacketAccepted` | crates/optimizer-host/src/confirmed_context.rs:240-353 | The host accepts the client's packet if and only if exactly one mandatory target is eligible |
| `ContextRefinement.TargetsSelected` | crates/optimizer-host/src/confirmed_context.rs:431-436 | The mandatory targets among the selected items are as many as the eligible ones, for any candidates |
| `ContextRefinement.HostPacketAccepted` | crates/optimizer-host/src/confirmed_context.rs:240-353 | The packet built from the host's own compilation is accepted if and only if no two candidates share an identity, the mandatory ones fit the budget, and exactly one mandatory target is eligible |
| `ContextClient.EveryCandidateOnce` | packages/kernel/src/context-compiler.ts:160-208 | Duplicates included, every candidate is in a successful plan once: items and exclusions together have the sources of the candidates, as often as they occur there |
| `ContextScreening.HostSendsAdmitted` | crates/optimizer-host/src/confirmed_context.rs:604-620 | Whatever is in the plan of the host is not archived, rejected or deleted, is a draft only if the user selected it, and is never-send only for a local provider |
| `ContextScreening.ClientSendsAdmitted` | packages/kernel/src/context-compiler.ts:108-136 | The same of every plan of the client |
| `ContextScreening.AcceptedItemsAdmitted` | crates/optimizer-host/src/confirmed_context.rs:240-353 | The same of every item of an accepted packet, which is a candidate of the host field by field |
| `ContextScreening.EligibleAdmitted` | crates/optimizer-host/src/confirmed_context.rs:604-620 | And every candidate of which that holds passes the screen |
| `ContextScreening.HostExclusionsExactly` | crates/optimizer-host/src/confirmed_context.rs:384-404 | Each of the four reasons is given exactly to the candidates whose fields warrant it, or that were not selected |
| `ContextScreening.ClientExclusionsExactly` | packages/kernel/src/context-compiler.ts:108-136 | The three policy reasons likewise for the client |
| `ContextScreening.ClientDuplicatesExactly` | packages/kernel/src/context-compiler.ts:138-158 | A duplicate is a later copy of an eligible candidate with the same reference, hash and render mode |
| `ContextScreening.ClientTargetExactly` | packages/kernel/src/context-compiler.ts:151-158 | With distinct references the client misses a target exactly if no candidate of the target tier may be sent |
| `ContextScreening.HostItemsOrdered` | crates/optimizer-host/src/confirmed_context.rs:461-489 | The items are in order of tier, mandatory flag, rounded score, reference and hash |
| `ContextScreening.HostExclusionsOrdered` | crates/optimizer-host/src/confirmed_context.rs:461-489 | The exclusions are in order of reference and reason |
| `ContextScreening.ClientItemsOrdered` | packages/kernel/src/context-compiler.ts:210-214 | The items of the client are in order of tier, mandatory flag, raw score, reference and hash |
| `ContextScreening.BudgetedByScore` | crates/optimizer-host/src/confirmed_context.rs:405-460 | The budget goes to the optional candidates by score, highest first, on equal scores by tier |
| `ContextScreening.CapIsShare` | crates/optimizer-host/src/confirmed_context.rs:554-563 | The cap of a tier is the largest whole number of tokens within its share of the budget, for each of the five profiles |
| `ContextScreening.TokensAre` | crates/optimizer-host/src/confirmed_context.rs:405-414 | Half a token a character, rounded up, and at least one |
| `ContextScreening.RoundedWithin` | crates/optimizer-host/src/confirmed_context.rs:520-541 | Rounding moves a score by at most half a millionth |
| `ContextScreening.ToleranceIs` | crates/optimizer-host/src/confirmed_context.rs:290-300 | A score of an item may differ by half a millionth either way and no more |
| `ContextScreening.Sha256Is` | crates/optimizer-host/src/confirmed_context.rs:308-310 | A content hash is the word, a colon and 64 lower-case hexadecimal digits |
| `ContextScreening.OperationsAre` | crates/optimizer-host/src/confirmed_context.rs:554-563 | The five operation names |
| `ContextAgreement.SamePlanExactly` | packages/kernel/src/context-compiler.ts:108-214 | For any budget and arrival order the client's plan is the host's, items and exclusions, if and only if a target is eligible, the mandatory candidates fit, both pick the same candidates, no two picked ones are told apart by rounding or string order, and the string orders agree on the references left out |
| `ContextAgreement.SamePlanWhen` | packages/kernel/src/context-compiler.ts:108-214 | With room for all eligible candidates that is: a target is eligible, no two eligible candidates of one tier are told apart, and the string orders agree on the references of the ineligible ones |
| `ContextAgreement.SameItemsWhen` | packages/kernel/src/context-compiler.ts:210-214 | With room for all, both sides list the same items if and only if no two eligible candidates of one tier are told apart by rounding or by the string order |
| `ContextAgreement.SameItemsExactly` | packages/kernel/src/context-compiler.ts:210-214 | The items agree if and only if both allocators pick the same candidates and no two picked ones are told apart |
| `ContextAgreement.SameExclusionsExactly` | packages/kernel/src/context-compiler.ts:200-214 | With the same picks, the exclusions agree if and only if the string orders agree on the references left out |
| `ContextAgreement.TwoDecimalsExact` | crates/optimizer-host/src/confirmed_context.rs:520-541 | Rounding changes no score whose signals have two decimals |
| `ContextAgreement.TwoDecimalsAgree` | crates/optimizer-host/src/operation_context.rs:131-293 | So two such candidates are told apart only if their scores are equal and the string orders differ on their references |
| `ContextAgreement.TwoDecimalsSamePlan` | crates/optimizer-host/src/operation_context.rs:131-293 | With such signals and string orders that agree on the references, the client's plan is the host's for any budget and arrival order |
| `ContextAgreement.RoundingDisagrees` | crates/optimizer-host/src/confirmed_context.rs:520-541 | One mandatory target and two local candidates, all hashed, whose raw scores differ by less than the rounding unit: the two sides list different items |
| `OperationModel.ValidateLifecycle` | crates/optimizer-store/src/operation.rs:1389-1415 | Accepts exactly the 1 to 64 events that walk the operation machine from draft to the final state, each with a time and no blank reason |
| `OperationModel.ValidateAttempts` | crates/optimizer-store/src/operation.rs:1299-1387 | Accepts exactly up to three attempts numbered from 1, each with its times, a success only at the end, every earlier failure with a retry delay |
| `OperationModel.ValidateBundle` | crates/optimizer-store/src/operation.rs:1167-1297 | The whole bundle check: state, required parts, packet binding, lifecycle, attempts |
| `OperationSpec.AttemptCheckExactly` | crates/optimizer-store/src/migration.rs:586-626 | A validated attempt passes the table checks exactly when its remote request id is not the empty string, the one place where validator and table differ |
| `OperationSpec.EmptyRemoteIdRefused` | crates/optimizer-store/src/operation.rs:109-135 | A bundle that passes the whole validation and is then refused by the attempt table |
| `OperationInvariants.PersistKeeps` | crates/optimizer-store/src/operation.rs:20-162 | Storing a bundle keeps the invariant |
| `OperationInvariants.AppendKeeps` | crates/optimizer-store/src/operation.rs:874-960 | Appending a review event keeps the invariant |
| `OperationInvariants.StatesFollow` | crates/optimizer-store/src/operation.rs:1450-1600 | A legal review step never asks the run for an illegal transition |
| `OperationInvariants.InvVerified` | crates/optimizer-store/src/operation.rs:765-871 | The invariant implies all thirteen statements, as the queries say them |
| `OperationInvariants.EveryRunVerified` | crates/optimizer-store/src/operation.rs:765-871 | After any sequence of calls from empty tables, failed ones included, all thirteen statements hold |
| `OperationInvariants.RunFollowsReview` | crates/optimizer-store/src/operation.rs:1508-1565 | After any calls a stored proposal is applied if and only if its run is accepted, rejected or in conflict if and only if its run is, else its run is under review |
| `OperationEffects.EdgesExactly` | crates/optimizer-store/src/operation.rs:1587-1601 | The operation machine has exactly the listed 21 edges |
| `OperationEffects.ReviewEdgesExactly` | crates/optimizer-store/src/operation.rs:1450-1506 | For every two review statuses exactly the listed events lead from one to the other; a decision names hunk and verdict, other events neither |
| `OperationEffects.AcceptableExactly` | crates/optimizer-store/src/operation.rs:1167-1415 | The bundle check accepts exactly the bundles spelled out field by field |
| `OperationEffects.AttemptExactly` | crates/optimizer-store/src/operation.rs:1299-1387 | An attempt is validated exactly if it meets the table checks, an empty remote request id aside, and fits its place |
| `OperationEffects.PersistSucceedsExactly` | crates/optimizer-store/src/operation.rs:20-162 | When a bundle is stored, check by check |
| `OperationEffects.PersistStores` | crates/optimizer-store/src/operation.rs:20-92 | What a stored bundle leaves in the run and packet tables, column by column |
| `OperationEffects.PersistLogs` | crates/optimizer-store/src/operation.rs:93-135 | Its events, numbered from 1, and its attempts; no other log changes |
| `OperationEffects.PersistOpensReview` | crates/optimizer-store/src/operation.rs:137-159 | Its artifact, and for a proposal a head in review at revision 0 |
| `OperationEffects.AppendSucceedsExactly` | crates/optimizer-store/src/operation.rs:874-900 | When a review event is applied, and what a stale one is told |
| `OperationEffects.AppendLogs` | crates/optimizer-store/src/operation.rs:902-944 | The event is logged as sent, payload included, one revision on, and the head follows it |
| `OperationEffects.AppendMovesRun` | crates/optimizer-store/src/operation.rs:1508-1565 | The run goes to accepted when applied, to rejected and conflicted alike, else to review; no other run and no column changes |
| `OperationEffects.AppendLogsMove` | crates/optimizer-store/src/operation.rs:1508-1565 | A run that moves logs one transition with the name of the event, one that stays logs nothing |
| `OperationHistory.LogOfEveryRun` | crates/optimizer-store/src/operation.rs:1508-1565 | Once a bundle is stored, its run's log is for ever the persisted events followed by the review statuses as operation states with repeats dropped, and walks from draft to the current state |
| `OperationHistory.OnlyLastCloses` | crates/optimizer-store/src/operation.rs:1450-1506 | Only the last row of a review log can reach applied or rejected |
| `OperationHistory.ApplyExcludesReject` | crates/optimizer-store/src/operation.rs:1450-1506 | No review log holds both an apply and a reject event |
| `OperationHistory.ClosedForEver` | crates/optimizer-store/src/operation.rs:874-960 | After applied or rejected no later sequence of calls changes the head or adds to its log |
| `OperationHistory.EarlierAttemptsRetried` | crates/optimizer-store/src/operation.rs:1299-1387 | Every stored attempt but the last failed before any response and was marked for a delayed retry |
| `OperationMetrics.FindAppliedAfterRejection` | crates/optimizer-store/src/operation.rs:308-318 | The scan finds an apply after a reject exactly when there is one |
| `OperationMetrics.Count` | crates/optimizer-store/src/operation.rs:289-335 | The loop computes the three counts and the rate over the grouped logs |
| `OperationMetrics.VerdictsInOrder` | crates/optimizer-store/src/operation.rs:259-307 | The events are looked at in the order of their sequence numbers |
| `OperationMetrics.NeverAcceptedAfterRejection` | crates/optimizer-store/src/operation.rs:259-336 | On every log the store can build `accepted_after_rejection` is 0 and no proposal is counted both as accepted and as rejected |
| `OperationMetrics.RejectedUncounted` | crates/optimizer-store/src/operation.rs:299-307 | A rejected proposal has no reject event exactly when its last event is a decision, so the reject count misses those |
| `OperationMetrics.CountsExactly` | crates/optimizer-store/src/operation.rs:259-336 | The acceptance count is the number of applied proposals; the rejection count is the number of rejected ones less those a decision rejected |
| `OperationMetrics.RejectedWithoutEvent` | crates/optimizer-store/src/operation.rs:259-336 | Three calls from empty tables after which a proposal is rejected and has no reject event |
| `OperationStore.GuardsAdmit` | crates/optimizer-store/src/migration.rs:311-322 | Every step of the review machine passes both database guards |
| `OperationStore.HeadGuardExactly` | crates/optimizer-store/src/migration.rs:311-322 | The head guard lets a status change through exactly when some review event makes it |
| `OperationStore.RunGuardExactly` | crates/optimizer-store/src/migration.rs:720-747 | The run guard is exactly the part of the operation machine that starts under review |
| `OperationStore.AttemptInserted` | crates/optimizer-store/src/migration.rs:586-626 | Inserting a validated attempt meets no key or check but the empty remote request id |
| `OperationStore.InsertsRefuse` | crates/optimizer-store/src/migration.rs:178-280 | Which keys and references each insert checks |
| `OperationStore.InsertReviewRefuses` | crates/optimizer-store/src/migration.rs:256-272 | The keys of the review log |
| `OperationStore.UpdatesAre` | crates/optimizer-store/src/operation.rs:924-944 | An update asks for the row it expects and changes nothing else |
| `OperationStore.Transaction.InsertLifecycleRows` | crates/optimizer-store/src/operation.rs:93-107 | The insert loop stores the numbered events; its key never fires |
| `OperationStore.Transaction.InsertAttempts` | crates/optimizer-store/src/operation.rs:109-135 | The insert loop stores the attempts or is refused for an empty remote request id, nothing else |
| `OperationStore.Transaction.InsertArtifactAndHead` | crates/optimizer-store/src/operation.rs:137-159 | Artifact and, for a proposal, a head in review at revision 0; refused only for a used artifact id |
| `OperationStore.Transaction.AdvanceHead` | crates/optimizer-store/src/operation.rs:902-944 | Logs the event with the next sequence and moves the head; refused only for a used event id; no guard, unique key or row count fires |
| `OperationStore.Transaction.UpdateOperationState` | crates/optimizer-store/src/operation.rs:1508-1565 | The run follows the review status with one logged transition, or nothing; InvariantViolation exactly where the operation machine has no such transition, the guard exactly where the run is not under review |
| `OperationStore.Transaction.AppendReviewEventInTransaction` | crates/optimizer-store/src/operation.rs:874-960 | The statements do what the call's specification says, error by error: on the tables the store keeps, neither an InvariantViolation branch nor a guard ever fires |
| `OperationStore.OptimizerStore.PersistOperationBundle` | crates/optimizer-store/src/operation.rs:20-162 | All or nothing: on success exactly the stored bundle, on error the specified error and unchanged tables; the invariant is kept |
| `OperationStore.OptimizerStore.AppendReviewEvent` | crates/optimizer-store/src/operation.rs:629-637 | All or nothing likewise |
| `OperationStore.OptimizerStore.GetRevisionMetrics` | crates/optimizer-store/src/operation.rs:259-336 | Returns the metrics of the project, `accepted_after_rejection` 0 |
| `Decimal.SameLengthOrder` | crates/optimizer-host/src/workspace_commands.rs:998-1010 | Numerals of one length compare as their numbers |
| `Decimal.Format8Length` | crates/optimizer-host/src/workspace_commands.rs:1008 | The padded index has eight digits exactly below 10^8 |
| `DocumentForest.SiblingsUnique` | crates/optimizer-host/src/workspace_commands.rs:982-996 | There is only one way to list the active children of a parent by order key and id |
| `DocumentForest.OrderedSiblingIds` | crates/optimizer-host/src/workspace_commands.rs:982-996 | Returns that list |
| `DocumentOrder.RekeyDocuments` | crates/optimizer-host/src/workspace_commands.rs:998-1010 | The listed documents get the keys of their positions, the others keep theirs |
| `DocumentOrder.RekeyReadsBack` | crates/optimizer-host/src/workspace_commands.rs:982-1010 | After renumbering, the sibling order is the one asked for if and only if there are at most 10^8 siblings |
| `DocumentOrder.NinthDigitBreaksOrder` | crates/optimizer-host/src/workspace_commands.rs:998-1010 | Index 10^8 sorts before index 10^8 - 1 |
| `DocumentOrder.RekeyedKeysUnique` | crates/optimizer-host/src/workspace_commands.rs:998-1010 | With a fresh namespace renumbering leaves no two children of one parent with one key |
| `DocumentOrder.AppendSiblingOrderKey` | crates/optimizer-host/src/workspace_commands.rs:969-980 | The last active sibling's key extended, or the first key of an empty group |
| `DocumentOrder.AppendedIsLast` | crates/optimizer-host/src/workspace_commands.rs:969-980 | A document with that key is the last of its siblings |
| `DocumentTree.ClimbToRoot` | crates/optimizer-store/src/store.rs:557-574 | The walk up the parents succeeds exactly when it reaches a root through active documents; it always ends |
| `DocumentTree.ValidateFinalDocumentTree` | crates/optimizer-store/src/store.rs:534-577 | Accepts exactly: some active document, unique keys per parent, every active document climbing to a root |
| `DocumentTree.TreeOkExactly` | crates/optimizer-store/src/store.rs:534-577 | That is: active documents closed under parents and without a cycle |
| `DocumentTree.ActiveSubtreeIds` | crates/optimizer-host/src/workspace_commands.rs:1032-1049 | Ends, for any parent data, with exactly the root and its descendants |
| `DocumentSafety.IndentAcyclic` | crates/optimizer-host/src/workspace_commands.rs:852-863 | Hanging a document under its previous sibling closes no cycle |
| `DocumentSafety.EveryRunWellFormed` | crates/optimizer-host/src/workspace_commands.rs:575-967 | Every sequence of create, rename, reorder, indent, outdent, archive and restore keeps parent links acyclic over all documents, active documents under active parents, unique keys per parent, and at least one active document |
| `DocumentSafety.OnlySizeRefused` | crates/optimizer-store/src/store/documents.rs:191-276 | A batch these commands build is refused only for having more than 1000 mutations; the final tree check never trips |
| `DocumentSafety.OutdentFindsParent` | crates/optimizer-host/src/workspace_commands.rs:864-883 | The InvariantViolation branches of outdent are never taken |
| `DocumentRoundTrip.IndentOutdent` | crates/optimizer-host/src/workspace_commands.rs:825-899 | Indent followed by outdent restores every parent link and every sibling sequence |
| `DocumentRoundTrip.OutdentAccepted` | crates/optimizer-host/src/workspace_commands.rs:825-899 | That outdent is refused exactly when the siblings are more than one batch can hold |
| `DocumentOutdent.OutdentIndent` | crates/optimizer-host/src/workspace_commands.rs:825-899 | Outdent followed by indent restores the forest if and only if the document was the last child of its parent |
| `DocumentOutdent.IndentAccepted` | crates/optimizer-host/src/workspace_commands.rs:825-899 | That indent is refused exactly when the children are more than one batch can hold |
| `DocumentOutdent.MiddleChildMoves` | crates/optimizer-host/src/workspace_commands.rs:852-883 | Of three children the middle one ends up last: both commands are accepted and the order is another |
| `DocumentOutdent.FamilyHasMiddleChild` | crates/optimizer-host/src/workspace_commands.rs:852-883 | A project of four documents to which that applies |
| `DocumentRoundTrip.ReorderPlaces` | crates/optimizer-host/src/workspace_commands.rs:775-823 | A reorder swaps the document with its neighbour and leaves every other group alone |
| `DocumentEffects.ReorderRefused` | crates/optimizer-host/src/workspace_commands.rs:801-807 | A reorder has nothing to do for up exactly at the first place, for down exactly at the last |
| `DocumentEffects.ReorderMovesUp` | crates/optimizer-host/src/workspace_commands.rs:775-823 | Up takes the document to its place minus one, the neighbour takes its place |
| `DocumentEffects.ReorderMovesDown` | crates/optimizer-host/src/workspace_commands.rs:775-823 | Down takes it to its place plus one |
| `DocumentEffects.DepthRefused` | crates/optimizer-host/src/workspace_commands.rs:825-899 | An indent has nothing to do exactly for the first of its siblings, an outdent exactly for a root |
| `DocumentEffects.IndentMoves` | crates/optimizer-host/src/workspace_commands.rs:852-863 | An indent hangs the document behind the children of the sibling before it and keeps all other groups |
| `DocumentEffects.OutdentMoves` | crates/optimizer-host/src/workspace_commands.rs:864-883 | An outdent puts it right behind its parent and keeps all other groups |
| `DocumentEffects.RenameExactly` | crates/optimizer-host/src/workspace_commands.rs:731-773 | When a rename is made and each reason why not, with the length of the trimmed title |
| `DocumentEffects.RenameStores` | crates/optimizer-host/src/workspace_commands.rs:731-773 | A rename stores the trimmed title, one revision on, and nothing else |
| `DocumentEffects.CreateStores` | crates/optimizer-host/src/workspace_commands.rs:575-683 | A created document is active at revision 0 with the trimmed title under the parent asked for |
| `DocumentEffects.CreateSucceedsExactly` | crates/optimizer-host/src/workspace_commands.rs:575-683 | When a create is made: a title of 1 to 200 characters after trimming, a text within the limit, an active parent |
| `DocumentEffects.ArchiveExactlyWhen` | crates/optimizer-host/src/workspace_commands.rs:915-935 | An archive is refused only if nothing active would be left |
| `DocumentEffects.ArchiveStores` | crates/optimizer-host/src/workspace_commands.rs:915-935 | It makes exactly the document and its active descendants inactive, one revision on |
| `DocumentEffects.RestoreExactly` | crates/optimizer-host/src/workspace_commands.rs:936-967 | A restore needs exactly that the parent, if any, is active |
| `DocumentEffects.RestoreStores` | crates/optimizer-host/src/workspace_commands.rs:936-967 | It makes that one document active, one revision on |
| `DocumentEffects.BatchAnswers` | crates/optimizer-store/src/store/documents.rs:191-341 | A batch of an edit: nothing to do, refused as a whole, or every changed document one revision on |
| `DocumentEffects.NumberedKeyIs` | crates/optimizer-host/src/workspace_commands.rs:998-1010 | The key of place 42 |
| `DocumentEffects.AppendKeyIs` | crates/optimizer-host/src/workspace_commands.rs:969-980 | The first key of a group, and the last key with a tilde and the suffix |
| `Text.TrimIs` | crates/optimizer-host/src/workspace_commands.rs:575-590 | Trimming takes white space off both ends, all of it and nothing else |
| `DocumentRoundTrip.ReorderBack` | crates/optimizer-host/src/workspace_commands.rs:775-823 | Up followed by down, and down followed by up, restores every parent link and every sibling sequence |
| `DocumentRoundTrip.ArchiveExactly` | crates/optimizer-host/src/workspace_commands.rs:915-935 | An archive makes exactly the document and its active descendants inactive and changes nothing else |
| `DocumentRoundTrip.CreateExactly` | crates/optimizer-host/src/workspace_commands.rs:575-683 | With a fresh id and suffix a create is refused exactly for its title, its text or its parent |
| `DocumentRoundTrip.CreateAppends` | crates/optimizer-host/src/workspace_commands.rs:575-683 | The new document is last among its siblings and no other group changes |
| `DocumentWorkspace.EditReorder` | crates/optimizer-host/src/workspace_commands.rs:775-823 | Reads the siblings, swaps two, renumbers: the specified edit, error by error |
| `DocumentWorkspace.EditDepth` | crates/optimizer-host/src/workspace_commands.rs:825-899 | Indent and outdent as they run: the specified edit, error by error |
| `DocumentWorkspace.EditArchived` | crates/optimizer-host/src/workspace_commands.rs:901-967 | Archive with its subtree, or restore one document: the specified edit, error by error |
| `DocumentWorkspace.Workspace.ApplyDocumentBatch` | crates/optimizer-store/src/store/documents.rs:191-341 | All changed documents take their new state one revision on, or none does |
| `DocumentWorkspace.Workspace.CreateDocument` | crates/optimizer-host/src/workspace_commands.rs:575-683 | As specified, well-formedness kept |
| `DocumentWorkspace.Workspace.RenameDocument` | crates/optimizer-host/src/workspace_commands.rs:731-773 | As specified, well-formedness kept |
| `DocumentWorkspace.Workspace.ReorderDocument` | crates/optimizer-host/src/workspace_commands.rs:775-823 | As specified, well-formedness kept |
| `DocumentWorkspace.Workspace.ChangeDocumentDepth` | crates/optimizer-host/src/workspace_commands.rs:825-899 | As specified, well-formedness kept |
| `DocumentWorkspace.Workspace.SetDocumentArchived` | crates/optimizer-host/src/workspace_commands.rs:901-967 | As specified, well-formedness kept |
| `RootHash.FieldReads` | crates/optimizer-host/src/workspace_commands.rs:1238-1242 | A field can be read off the front of any bytes in one way only |
| `RootHash.DocumentStatePayload` | crates/optimizer-host/src/workspace_commands.rs:1194-1209 | Writes the bytes of a document state |
| `RootHash.StateReads` | crates/optimizer-host/src/workspace_commands.rs:1194-1209 | Those bytes determine id, parent, kind, title, order key and the active flag |
| `RootHash.StatePayloadIs` | crates/optimizer-host/src/workspace_commands.rs:1194-1209 | The bytes of two small documents, one with and one without a parent |
| `RootHash.ProjectRootPayload` | crates/optimizer-host/src/workspace_commands.rs:1211-1236 | Writes the bytes of the sorted entries |
| `RootHash.RootReads` | crates/optimizer-host/src/workspace_commands.rs:1211-1236 | Equal root bytes mean equal entries, with multiplicity |
| `RootHash.RootExactly` | crates/optimizer-host/src/workspace_commands.rs:1211-1236 | With distinct ids two inputs give the same bytes if and only if they hold the same entries, in any order |
| `RootHash.IdsMakeEntities` | crates/optimizer-host/src/workspace_commands.rs:1211-1236 | Document and block ids never clash as entities |
| `RootHash.RootDetermines` | crates/optimizer-host/src/workspace_commands.rs:1211-1236 | Equal root bytes mean the same documents and blocks, unless two different state payloads among those of the two projects have one hash |
| `RootHash.RootPayloadIs` | crates/optimizer-host/src/workspace_commands.rs:1211-1236 | The bytes of a project of one block and of one of one document |
| `DocumentTraversal.EveryDocumentOnce` | crates/optimizer-host/src/summary_worker.rs:317-334 | For any parent data, cycles and missing parents included, the walk lists every document exactly once |
| `DocumentTraversal.ForestIsPreorder` | crates/optimizer-host/src/summary_worker.rs:317-334 | On a well-formed forest it is the preorder, roots and siblings by order key and id |
| `DocumentTraversal.SubtreeContiguous` | crates/optimizer-host/src/summary_worker.rs:336-345 | Every subtree is one stretch of that order and equal to `ordered_subtree` |
| `DocumentTraversal.ParentFirst` | crates/optimizer-host/src/summary_worker.rs:347-363 | Parents come before their children |
| `DocumentTraversal.SiblingsApart` | crates/optimizer-host/src/summary_worker.rs:347-363 | Trees of two siblings share no document |
| `DocumentTraversal.Traversal.VisitDocument` | crates/optimizer-host/src/summary_worker.rs:347-363 | The recursion over the shared visited set and list does what the walk function says; it ends on any data |
| `DocumentTraversal.OrderedForest` | crates/optimizer-host/src/summary_worker.rs:317-334 | Lists every document exactly once |
| `DocumentTraversal.OrderedSubtree` | crates/optimizer-host/src/summary_worker.rs:336-345 | The walk from the root, or nothing if it is absent |
| `SummaryOrder.ChildrenAreSiblings` | crates/optimizer-host/src/summary_worker.rs:365-372 | The walk visits children in the order the workspace shows siblings |
| `SummaryOrder.SummaryWalk` | crates/optimizer-host/src/summary_worker.rs:317-372 | After any run of document commands the walk is the preorder, with every active document once and each subtree in one stretch |
| `EditorTransaction.RefusedExactly` | packages/editor-bridge/src/transaction.ts:38-56 | The step loop refuses exactly when two steps share a block or some step cannot be applied to the original block |
| `EditorTransaction.OrderIndependent` | packages/editor-bridge/src/transaction.ts:34-71 | Every order of the steps succeeds or fails alike and leaves the same blocks |
| `EditorTransaction.SameNextDocument` | packages/editor-bridge/src/transaction.ts:58-70 | And the same next document |
| `EditorTransaction.UntouchedUnchanged` | packages/editor-bridge/src/transaction.ts:73-153 | Blocks no step names, and blocks already locked, are unchanged |
| `EditorTransaction.ReplaceLeaves` | packages/editor-bridge/src/transaction.ts:110-131 | A replaced block has the content, text and kind of its step and keeps key, document and lock, one revision on |
| `EditorTransaction.MoveLeaves` | packages/editor-bridge/src/transaction.ts:95-108 | A moved block changes only its order key and revision |
| `EditorTransaction.InsertLeaves` | packages/editor-bridge/src/transaction.ts:78-89 | An inserted block holds the given fields at revision 0 |
| `EditorTransaction.DeleteLeaves` | packages/editor-bridge/src/transaction.ts:97-100 | A deleted block was there and is gone |
| `EditorTransaction.StepOkExactly` | packages/editor-bridge/src/transaction.ts:73-153 | When a step can be applied to the original: the block exists, is unlocked and is at the revision and hash expected; an inserted one does not exist |
| `EditorTransaction.StepFails` | packages/editor-bridge/src/transaction.ts:133-153 | Each error of a step, in the order of the checks |
| `EditorTransaction.StepRefusalIs` | packages/editor-bridge/src/transaction.ts:38-56 | A step is refused for another document, for a block touched before, or for its own reason, in that order |
| `EditorTransaction.ChangesAre` | packages/editor-bridge/src/transaction.ts:38-56 | Each recorded change names operation and block and holds the block before and after |
| `EditorTransaction.RefusalIs` | packages/editor-bridge/src/transaction.ts:13-71 | When a transaction is refused before its steps, and when not at all |
| `EditorTransaction.HashesStayTrue` | packages/editor-bridge/src/transaction.ts:73-131 | Blocks keep their ids, stay in their document and carry the hash of their contents |
| `EditorTransaction.UndoRestores` | packages/editor-bridge/src/transaction.ts:38-56 | Undoing the recorded changes restores the old blocks |
| `EditorTransaction.NotReplayable` | packages/editor-bridge/src/transaction.ts:73-153 | Applied again to the blocks it left, the transaction is refused: every step of it is stale |
| `EditorTransaction.UniqueOrderKeys` | packages/editor-bridge/src/transaction.ts:173-182 | Comparing neighbours of the sorted blocks finds a duplicate key exactly when there is one |
| `EditorTransaction.SortedBlocks` | packages/editor-bridge/src/transaction.ts:58 | The blocks in order key and id order, each once |
| `EditorTransaction.ApplySteps` | packages/editor-bridge/src/transaction.ts:38-56 | The loop over the steps: first refusal, or the blocks and changes of all steps |
| `EditorTransaction.CompileEditorTransaction` | packages/editor-bridge/src/transaction.ts:13-71 | The compiled document and changes, or the first error |
| `ModelGateway.EveryRunKeeps` | crates/optimizer-host/src/model_gateway.rs:616-722 | Every interleaving keeps at most 32 pending authorizations, no two for one request, each taken with success at most once, and every active entry owned by one execution |
| `ModelGateway.AuthorizeRefused` | crates/optimizer-host/src/model_gateway.rs:625-667 | Refused exactly with 32 unexpired entries, or for a request id that one of those or the active table has |
| `ModelGateway.AuthorizeLeaves` | crates/optimizer-host/src/model_gateway.rs:625-680 | After every authorize, refused or not, exactly the unexpired entries are left, unchanged; a granted one is added for 120 seconds |
| `ModelGateway.TakeIs` | crates/optimizer-host/src/model_gateway.rs:682-722 | Each reason why a take fails, in the order of the checks; every take removes the entry |
| `ModelGateway.ControlMoves` | crates/optimizer-host/src/model_gateway/model_gateway_transport.rs:157-203 | A control leaves the active state once, to where the step says, and no other control moves |
| `ModelGateway.StepsSettle` | crates/optimizer-host/src/model_gateway.rs:974-1030 | Which control each step moves, and where |
| `ModelGateway.CancelTakes` | crates/optimizer-host/src/model_gateway.rs:986-1030 | A cancel takes exactly the entries of its request, a clear all of them |
| `ModelGateway.TakenOnce` | crates/optimizer-host/src/model_gateway.rs:682-722 | A successful take is in time, for the project and commit it was issued for, and uses the authorization up |
| `ModelGateway.NeverTakenTwice` | crates/optimizer-host/src/model_gateway.rs:682-722 | A taken authorization is invalid ever after |
| `ModelGateway.UnregisterRemovesOwn` | crates/optimizer-host/src/model_gateway/model_gateway_transport.rs:241-262 | The guard that ends an execution removes its own entry and no other |
| `ModelGateway.SettledForEver` | crates/optimizer-host/src/model_gateway/model_gateway_transport.rs:157-192 | A control that has left the active state never changes again |
| `ModelGateway.ApartExactly` | crates/optimizer-host/src/model_gateway.rs:845-866 | In an interleaving no request id is ever both pending and active if and only if no execution is started for a request id that is pending when it starts |
| `ModelGateway.ApartStep` | crates/optimizer-host/src/model_gateway.rs:616-866 | A step puts a request id into both tables exactly when it starts an execution for a pending one |
| `ModelGateway.PendingAndActive` | crates/optimizer-host/src/model_gateway.rs:845-866 | That happens: a request id can be authorized again between a take and the start of its execution |
| `ModelGateway.ModelExecutionHost.AuthorizeRequest` | crates/optimizer-host/src/model_gateway.rs:616-680 | Expired authorizations are dropped first, also on failure; refused at 32 pending or for a request id pending or active; otherwise one more, for 120 seconds |
| `ModelGateway.ModelExecutionHost.TakeAuthorizedRequest` | crates/optimizer-host/src/model_gateway.rs:682-722 | Unknown, expired, stale or the request, in that order of checks; every outcome uses the authorization up |
| `ModelGateway.ModelExecutionHost.BeginExecution` | crates/optimizer-host/src/model_gateway.rs:845-866 | Registers the execution unless its request id is active |
| `ModelGateway.ModelExecutionHost.CompleteControl` | crates/optimizer-host/src/model_gateway/model_gateway_transport.rs:247-249 | Completes the control unless it was settled, before any lock is taken |
| `ModelGateway.ModelExecutionHost.UnregisterExecution` | crates/optimizer-host/src/model_gateway/model_gateway_transport.rs:250-261 | Frees the request id, under the lock |
| `ModelGateway.ModelExecutionHost.CancelPendingRequest` | crates/optimizer-host/src/model_gateway.rs:986-999 | Removing the first match removes them all, since there is at most one |
| `ModelGateway.ModelExecutionHost.CancelActiveRequest` | crates/optimizer-host/src/model_gateway.rs:974-985 | Reports success exactly when it settled an active control |

## Left out

- SQLite: statement text, page and lock behaviour, foreign-key enforcement beyond what the statements are checked for here, migrations as scripts, full-text search; `LIMIT 1` reads the row with the greatest sequence, texts hold no NUL characters.
- The staging of a document batch through temporary order keys, project head and revision bookkeeping, change sets, summary invalidation and blocks of documents.
- SHA-256, zstd, JSON and UUIDs: the hash is a parameter, claims about hashes are about the bytes before hashing, generated values are new by assumption.
- Widths: `i64`, `usize` and `f64` are unbounded integers and reals, so sums, revisions and sequence numbers do not overflow, and the rounding of scores, caps and rates in floating point is not modelled.
- The defaults for missing candidate signals, the tokenizer, and candidate collection: a candidate carries its signals, both sides count half a token a character, at least one.
- `TIER_BUDGET`: all five profiles allow tier borrowing, so the client's branch without it is not modelled.
- `localeCompare` is any total order that is 0 only on equal strings; nothing else about it is claimed.
- The store's check that stored fields of a mutated document are not blank.
- Field checks of runs, packets, artifacts and review events: lengths, blanks, JSON validity, provider ids, endpoint formats and usage are one flag of a bundle or command, the item shape is a parameter of the host check.
- OperationModel.ValidateBundle: does not model those field checks one by one, because each concerns one field and no other row; the fields of lifecycle events and attempts are checked one by one.
- DocumentWorkspace.Workspace.ApplyDocumentBatch: does not model the branch head, the project revision and the staging through temporary order keys, because no other step reads them.
- DocumentWorkspace.Workspace.CreateDocument: does not model the first block, which holds the initial text; the limit on that text is modelled.
- OperationStore.OptimizerStore.GetRevisionMetrics: takes as a parameter whether the project id is blank, because nothing else depends on the text of the id.
- ModelGateway.ModelExecutionHost.TakeAuthorizedRequest: does not model the format check of the authorization id, because an id of another format is never pending.
- Poisoned locks, the watchdog thread, transports, streaming sinks, credentials and endpoints of the model gateway; `cancel_all` is its steps (cancel a control, clear the pending table), not its count.
- Export and import of snapshots, snapshot encoding, workspace queries, review candidates, payload-hash variations and insights: reading code with little branching.
- The desktop application's display code and autosave, registries, patch hunks and conflict detection, profiles.
