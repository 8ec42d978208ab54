# Process condition manager: verification model

This project models the deterministic engine of a process-condition manager and proves properties of
it. Projects hold layers, layers hold condition rows, rows hold cell values. The engine

* canonicalises decimal texts (`Decimals`, `StoredNumbers`) and scans a small regular-expression language for its
  longest match (`Pattern`);
* validates sheets against parameter definitions and rules (`Validation`, `Evaluator`,
  `ValidationLaws`, `ValidationOrder`), hashes those definitions (`DefinitionHash`) and freezes them at
  approval (`Freezing`);
* moves projects through review, approval and revision (`Workflow`, `WorkflowLaws`, `Approvals`), and
  bounds the details of a refused gate (`GateBudget`);
* freezes a baseline of each layer (`BaselineSnapshot`, `SnapshotLaws`), compares it with the live sheet
  (`BackboneDiff`, `DiffEngine`, `DiffLaws`, `DiffOrders`, `DiffCache`) and serves the result as counts,
  previews and pages (`DiffViews`, `DiffViewLaws`, `Paging`, `PageWalks`, `ResponseSizes`, `PageLosses`,
  `PageLimits`) behind opaque tokens (`Tokens`, on `Json`, `JsonSizes` and `Bytes`);
* in the browser, compares datetimes (`Calendar`) and collects paged choice options
  (`ChoiceOptions`).

`Ordering` holds sort keys and the stable sort everything is ordered by; `Results` and `Texts` hold
optional values, outcomes and decimal rendering of integers.

Where the program loops or assigns fields, a method or a class does the same and is proved against a
specification function; the theorems are lemmas about those functions. Lemmas switch automatic
induction off, so every inductive step stands in a proof. An object that the program keys
by its identity is an instance of a class with constant fields, so that equal objects can differ.

Some behaviour the code shows that its own words do not promise, each with its exact condition and an
input that shows it:

* normalising a decimal twice can fail (`Decimals.NormalizeIdempotent`, `Decimals.NormalizeTwiceFails`),
  so a number that the cell editor accepts can be stored with 129 digits, after which it is reported
  malformed and the layer can be neither captured nor compared (`StoredNumbers.StoredNumberReturns`,
  `StoredNumbers.CaptureFails`, `StoredNumbers.ComparisonFails`);
* called with a literal as typed, instead of as stored, the domain functions that freeze rules and
  snapshots accept what they later refuse (`Freezing.ReplayPreservesEvaluation`,
  `Freezing.ReplayCanFail`, `SnapshotLaws.ConstructedRoundTrip`, `SnapshotLaws.ConstructedCanBeRefused`);
  the services normalise rules before storing and on loading, so their snapshots replay
  (`WorkflowLaws.BasisReplay`);
* a removed row can list its cells out of order (`DiffOrders.CellOrders`,
  `DiffOrders.RemovedRowOutOfOrder`), and paging then skips a cell (`PageLosses.RemovedRowLosesCells`,
  `PageLosses.SwappedLayerLosesACell`);
* a token over 4096 characters makes the response that would carry it fail: condition pages fail over
  the tokens of an item although the root view counts its row (`DiffViewLaws.RootAgreesWithDrillDown`,
  `PageLimits.LongConditionPage`), never over their cursor (`PageLimits.ConditionCursorsShort`), and
  cell pages fail over their cursor (`PageWalks.CellPagesCollect`, `PageLimits.LongCellPage`);
* the size counter of the gate details is not an overestimate (`GateBudget.AssertionFailsExactly`,
  `GateBudget.AssertionCanFail`), and only the callers' bounds keep the final assertion true
  (`GateBudget.GateDetailsAlwaysFit`);
* a dot is treated as meeting every non-empty class, though it does not match a line feed
  (`Pattern.OverlapsIsCommonCharacter`, `Pattern.DotRefusesLineFeedClass`);
* decoding a cursor whose kind, or a row reference whose status, is a list or an object ends in a type
  error instead of a refusal (`Tokens.RowRefTypeErrors`, `Tokens.ScopeTypeErrors`,
  `Tokens.CursorTypeErrors`, with `Tokens.ListStatusIsATypeError` and `Tokens.ListKindIsATypeError`).

## Model

| member | source | states |
|---|---|---|
| `Decimals.NormalizePreservesValue` | backend/app/domain/decimal_values.py:11-26 | an accepted input and its canonical string denote the same exact rational number, and the result is canonical |
| `Decimals.NormalizeIdentifiesEqualNumbers` | backend/app/domain/decimal_values.py:11-26 | two accepted inputs have the same canonical string iff they denote the same number, all spellings of zero included |
| `Decimals.CanonicalUnique` | backend/app/domain/decimal_values.py:20-26 | canonical strings correspond one to one with the numbers they denote |
| `Decimals.RenormalizeCanonical` | backend/app/domain/decimal_values.py:13-26 | a canonical string within the digit limit renormalises to itself, beyond it it is refused |
| `Decimals.NormalizeIdempotent` | backend/app/domain/decimal_values.py:15-21 | normalising twice equals normalising once iff the input does not fill the digit limit behind a leading dot |
| `Decimals.NormalizeTwiceFails` | backend/app/domain/decimal_values.py:15-21 | a dot, 127 zeros and a one are accepted, and their canonical form is refused |
| `Decimals.CompareOrdersNumbers` | backend/app/domain/decimal_values.py:35-38 | the comparison of two accepted inputs is the order of the exact numbers they denote |
| `StoredNumbers.StoredNumberReturns` | backend/app/features/cells/service.py:205-211 | the stored form of a typed number is accepted unchanged by capture, comparison and rule loading, and draws no malformed issue, iff the typed text does not fill the digit limit behind a leading dot |
| `StoredNumbers.TinyNumberOutgrows` | backend/app/features/cells/service.py:205-211 | the editor accepts and stores a number whose text fills the limit so |
| `StoredNumbers.CaptureFails` | backend/app/features/projects/service.py:756-782 | capturing a layer that holds such a stored number fails |
| `StoredNumbers.ComparisonFails` | backend/app/domain/backbone/diff.py:1397-1416 | comparing a layer that holds one fails |
| `Pattern.PatternScanner.Scan` | backend/app/domain/validation/pattern.py:56-65 | the scanner accepts exactly the well-formed sources within the limits and returns the largest alternative bound |
| `Pattern.PatternScanner.ScanBranch` | backend/app/domain/validation/pattern.py:67-100 | one alternative is read up to its end with its running length, atom and quantifier counters checked as the grammar demands |
| `Pattern.PatternScanner.ScanCharacterClass` | backend/app/domain/validation/pattern.py:128-167 | a character class is accepted with exactly the characters its items denote, or refused |
| `Pattern.CompilePattern` | backend/app/domain/validation/pattern.py:203-210 | compiling succeeds iff the source is in the accepted subset, with the source's bound as maximum match length |
| `Pattern.MatchLengthBound` | backend/app/domain/validation/pattern.py:25-200 | the bound is sound (no matched string is longer), tight (some matched string attains it) and at most 1024 |
| `Pattern.LengthGuardIsRedundant` | backend/app/domain/validation/pattern.py:25-26 | the length guard before the full match never changes the answer |
| `Pattern.OverlapsIsCommonCharacter` | backend/app/domain/validation/pattern.py:34-44 | overlaps is true iff some character is accepted by both sides, or a dot meets a class of line feeds only |
| `Pattern.DotRefusesLineFeedClass` | backend/app/domain/validation/pattern.py:34-44 | a source within every other limit is refused because its dot meets a class of one line feed, though no character is accepted by both |
| `Evaluator.EvaluatePriorPor` | backend/app/domain/validation/evaluator.py:323-374 | the one-pass sweep that collects candidates of earlier layers appends exactly the issues of the declarative rule |
| `Evaluator.EvaluateStandaloneCell` | backend/app/domain/validation/evaluator.py:185-256 | the issue appended for one cell is the one the parameter's definition calls for, or none |
| `Evaluator.PrepareParameters` | backend/app/domain/validation/evaluator.py:54-126 | the preparation loop accepts exactly the consistent definitions and orders them |
| `Evaluator.EvaluateProject` | backend/app/domain/validation/evaluator.py:377-456 | the loops compute the specified issue list, in value and in failure |
| `ValidationLaws.StandaloneIssuesExactly` | backend/app/domain/validation/evaluator.py:185-256 | a cell issue is reported iff some prepared parameter raises it on some row of some layer |
| `ValidationLaws.RuleIssuesExactly` | backend/app/domain/validation/evaluator.py:279-374 | a relation issue is reported iff its rule fails on some row of some layer |
| `ValidationLaws.PriorPorExactly` | backend/app/domain/validation/evaluator.py:323-374 | an issue iff the canonical source value is present and no strictly earlier layer's first POR row carries it, with the layer's rank as searched layer count |
| `ValidationLaws.IssuesStrictlySorted` | backend/app/domain/validation/evaluator.py:415-456 | the issue list is strictly increasing in the issue order, so no tie is left open |
| `ValidationLaws.EvaluateCongruence` | backend/app/domain/validation/evaluator.py:377-456 | evaluation depends only on prepared parameters, ordered layers and rules up to the fields evaluation reads |
| `ValidationOrder.EvaluationIgnoresInputOrder` | backend/app/domain/validation/evaluator.py:377-456 | permuting parameters, choices, layers, conditions, rules or scope entries changes neither the issue list nor the failure, for distinct condition ids |
| `DefinitionHash.EqualPayloadsSameResults` | backend/app/domain/validation/hashing.py:142-183 | configurations with equal canonical payloads give the same issue list on every project |
| `DefinitionHash.PayloadIgnoresInputOrder` | backend/app/domain/validation/hashing.py:36-183 | the canonical payload does not depend on the order of parameters, rules, choices or scope entries |
| `DefinitionHash.ChoiceOrderIrrelevant` | backend/app/domain/validation/hashing.py:47-63 | the payload of one parameter ignores its choice order iff choices with one code agree in their active flag |
| `Freezing.ReplayPreservesEvaluation` | backend/app/domain/parameters/snapshot.py:25-88 | evaluating any sheet with the rehydrated definitions equals evaluating it with the live ones iff the live evaluation fails or every number literal renormalises |
| `Freezing.ReplayCanFail` | backend/app/domain/parameters/snapshot.py:25-88 | rows the snapshot accepts whose rule has such a literal: every sheet that evaluates live fails under the rehydrated definitions |
| `Freezing.ParameterDefinitions` | backend/app/domain/parameters/definition_view.py:130-169 | the loop fails exactly when a choice parameter names a set the document lacks, and otherwise gives the definitions the replay theorems evaluate with |
| `Freezing.SnapshotIsAccepted` | backend/app/domain/parameters/definition_view.py:241-316 | a captured snapshot passes the reader's checks iff the rows it captures have non-empty texts, distinct category and option codes, orders from 0 and versions from 1 |
| `Freezing.AcceptedFindsSets` | backend/app/domain/parameters/definition_view.py:130-169 | a document that passes the checks always yields its parameter definitions |
| `WorkflowLaws.BasisReplay` | backend/app/features/approval/service.py:642-720 | the snapshot captured from a loaded basis evaluates every sheet like that basis |
| `WorkflowLaws.ApproveClean` | backend/app/features/approval/service.py:279-295 | approving a reviewed project leaves it valid under the captured snapshot even when an unchanged digest skips revalidation |
| `WorkflowLaws.ApprovedProjectsAreValid` | backend/app/features/approval/service.py:221-321 | in every run each approved or archived project holds a frozen snapshot under which its cells have no error, and each of its layers has exactly one POR |
| `WorkflowLaws.ApprovedIsFrozen` | backend/app/features/approval/service.py:221-360 | after approval no later run changes a project except for archiving it |
| `WorkflowLaws.ApprovalIsAccepted` | backend/app/features/approval/service.py:279-295 | the document of an approval is accepted by its reader iff the captured rows are presentable |
| `WorkflowLaws.DocumentsReadBack` | backend/app/features/approval/service.py:221-321 | in every run over presentable registries each frozen document passes the reader's checks |
| `WorkflowLaws.RevisionChainsWellFormed` | backend/app/features/approval/service.py:323-442 | every run keeps lineage columns linked, at most one successor each, and archived iff succeeded |
| `WorkflowLaws.VersionIsDistance` | backend/app/domain/workflow/core.py:122-180 | a project's version is one plus its distance from the first version |
| `WorkflowLaws.RootBelow` | backend/app/domain/workflow/core.py:174-180 | the effective root exists, is the first version, and is the project itself iff its version is 1 |
| `WorkflowLaws.VersionUnique` | backend/app/models/project.py:64-65 | in one chain a version names a single project, so the unique constraint can never be hit by a revision |
| `WorkflowLaws.OneLiveMember` | backend/app/features/approval/service.py:323-360 | a chain has at most one member that is not archived |
| `WorkflowLaws.OneActiveProject` | backend/app/models/project.py:66-75 | in every run at most one project that is not archived has a given line, process and part, revisions included |
| `WorkflowLaws.ProposalAccepted` | backend/app/domain/workflow/core.py:122-180 | in a reachable store an approved project has no successor and its lineage is never refused |
| `WorkflowLaws.RowIdsStayApart` | backend/app/features/approval/service.py:406-433 | in every run no two rows share an id, within a project or across projects |
| `WorkflowLaws.RevisionStartsAsSource` | backend/app/features/approval/service.py:357-433 | a revision is a draft of the next version with its source's layers, rows and cells, under distinct row ids that no row of the store has; only the source changes, to archived |
| `Approvals.ProjectRecord.Transition` | backend/app/features/approval/service.py:221-295 | the transition assigns the record's fields to the specified project, or refuses as specified and changes nothing |
| `Approvals.ApprovalService.TransitionProject` | backend/app/features/approval/service.py:221-321 | one transition in the store performs the specified step on one record and leaves all others |
| `Approvals.ApprovalService.CopyGraph` | backend/app/features/approval/service.py:406-433 | the nested append loops build the layer-by-layer copy with fresh row ids in order |
| `Approvals.ApprovalService.Revise` | backend/app/features/approval/service.py:323-442 | creating a revision performs the specified step on the store or refuses and changes nothing |
| `GateBudget.BoundedItems` | backend/app/features/approval/service.py:761-774 | selects the longest prefix within the item and byte limits |
| `GateBudget.BoundedListSize` | backend/app/features/approval/service.py:566-569 | the selected list takes at most its byte budget in the dumped details |
| `GateBudget.GateDetails.Fit` | backend/app/features/approval/service.py:777-805 | the shrinking loop ends in the state and outcome of the specification, counter drift included |
| `GateBudget.SizeSplits` | backend/app/features/approval/service.py:808-809 | the UTF-8 size of the dumped details is the fixed part plus what the lists and the flag take |
| `GateBudget.ShrinkKeepsListsExactly` | backend/app/features/approval/service.py:777-805 | issues and missing coordinates survive iff the details fit already, or fit once a non-empty list of rule versions is gone |
| `GateBudget.GateDetailsAlwaysFit` | backend/app/features/approval/service.py:566-640 | with the callers' prefixes the loop ends within 240 KiB by dropping rule versions only, and no assertion fails |
| `GateBudget.FixedFieldsAreSmall` | backend/app/features/approval/service.py:630-640 | a digest, a timestamp and counts below 10^18 keep the fixed fields within 512 bytes |
| `GateBudget.AssertionFailsExactly` | backend/app/features/approval/service.py:777-805 | the final assertion fails iff popping reaches details over the budget by no more than the counter's drift, one byte for each emptied list less one for a changed flag; the loop runs out of items iff the emptied details exceed the budget by more |
| `GateBudget.AssertionCanFail` | backend/app/features/approval/service.py:777-805 | details with a digest of usual length and one issue beyond the callers' bounds make it fail |
| `BaselineSnapshot.MadeWellFormed` | backend/app/domain/backbone/snapshot.py:212-237 | the constructor only builds snapshots with distinct columns and conditions and canonical cells |
| `BaselineSnapshot.InstantRoundTrip` | backend/app/domain/backbone/snapshot.py:58-86 | parsing a formatted capture time gives it back |
| `SnapshotLaws.ParsedWellFormed` | backend/app/domain/backbone/snapshot.py:246-302 | parsing gives a well-formed snapshot in canonical order |
| `SnapshotLaws.ParseSerialized` | backend/app/domain/backbone/snapshot.py:246-325 | parsing a serialised snapshot gives it back in canonical order iff every stored number is within the digit limit, and is refused otherwise |
| `SnapshotLaws.ConstructedRoundTrip` | backend/app/domain/backbone/snapshot.py:642-670 | a constructed snapshot survives serialise and parse iff no number literal fills the digit limit behind a leading dot |
| `SnapshotLaws.ConstructedCanBeRefused` | backend/app/domain/backbone/snapshot.py:642-670 | a snapshot the constructor accepts whose serialised form is refused when parsed |
| `SnapshotLaws.SerializeParsed` | backend/app/domain/backbone/snapshot.py:305-325 | a parsed snapshot is in canonical order, and serialising again gives the same document |
| `SnapshotLaws.SerializeIgnoresOrder` | backend/app/domain/backbone/snapshot.py:331-339 | the hash input ignores the order of columns and conditions |
| `SnapshotLaws.ReadColumns` | backend/app/domain/backbone/snapshot.py:364-410 | the column loop accepts a list iff each column parses and no code repeats, and returns it sorted |
| `SnapshotLaws.ParseCache.ParseColumnsCached` | backend/app/domain/backbone/snapshot.py:413-433 | cached column parsing equals uncached parsing and keeps the cache valid |
| `SnapshotLaws.ParseCache.ParseSnapshot` | backend/app/domain/backbone/snapshot.py:246-281 | parsing with a shared cache equals parsing without one |
| `DiffEngine.GroupByLineage` | backend/app/domain/backbone/diff.py:627-630 | the candidate dictionary lists for each baseline condition its descendants in order |
| `DiffEngine.ComparePreparedLayer` | backend/app/domain/backbone/diff.py:602-744 | the loops over candidates, emitted ids, rows and counters compute the specified comparison |
| `DiffLaws.CoordinateMeaning` | backend/app/domain/backbone/diff.py:1034-1109 | each classification means exactly one relation of the two columns and values, and the change carries both sides |
| `DiffLaws.PlanLists` | backend/app/domain/backbone/diff.py:1353-1390 | the code lists of a plan enumerate union, current and baseline columns once each, in their orders |
| `DiffLaws.MatchedRowRebuilds` | backend/app/domain/backbone/diff.py:902-935 | a matched row rebuilds both of its conditions with all their values |
| `DiffLaws.RowsLoseNothing` | backend/app/domain/backbone/diff.py:602-744 | projecting the rows to either side gives every condition of that side once, with its canonical value at every column of the side, absent being null |
| `DiffOrders.CountersAddUp` | backend/app/domain/backbone/diff.py:703-744 | the five cell counters sum to matched times union plus added times current plus removed times baseline columns; row counters count each side once |
| `DiffOrders.RowsStrictlySorted` | backend/app/domain/backbone/diff.py:1165-1166 | rows are strictly sorted by effective index, status and identity |
| `DiffOrders.CellOrders` | backend/app/domain/backbone/diff.py:1353-1390 | cells of matched and added rows ascend strictly; cells of removed rows do iff baseline and shown column orders agree |
| `DiffOrders.RemovedRowOutOfOrder` | backend/app/domain/backbone/diff.py:973-1005 | the comparison of a valid layer whose two columns have swapped orders lists the cells of its removed row out of order |
| `DiffCache.SameShapeSamePlan` | backend/app/domain/backbone/diff.py:501-565 | column dictionaries of one code, type and order shape have the same plan and pass the type check together |
| `DiffCache.PrepareCache.PlanOfShape` | backend/app/domain/backbone/diff.py:508-566 | a plan found in the cache is the one that would be rebuilt, including the skipped type check |
| `DiffCache.PrepareCache.SelectedOf` | backend/app/domain/backbone/diff.py:1308-1338 | looking sorted codes up one by one selects exactly the active and stored parameters, or fails on a stored code without descriptor |
| `DiffCache.PrepareCache.Prepare` | backend/app/domain/backbone/diff.py:486-594 | with any valid cache a layer is prepared as with a fresh one, basis included |
| `DiffCache.CompareProject` | backend/app/domain/backbone/diff.py:747-758 | a project compared with one shared cache equals its layers compared alone, and fails with the first failing layer's error |
| `DiffCache.CellsByCondition` | backend/app/domain/backbone/diff.py:209-250 | database rows are accepted iff strictly ordered by id and code, and each condition gets all its cells in order |
| `DiffCache.TrustedCellsAreChecked` | backend/app/domain/backbone/diff.py:112-125 | the trusted path yields the cells the checking constructor would |
| `Paging.FollowCollects` | backend/app/features/backbone_diff/provider.py:707-732 | following next cursors with any positive limits collects every item once in order and ends |
| `Paging.UnsortedLoses` | backend/app/features/backbone_diff/provider.py:741-747 | without a strict order some first page passes an item no later cursor can reach |
| `DiffViewLaws.BundleDictionaries` | backend/app/features/backbone_diff/provider.py:315-357 | the column and parameter dictionaries the provider builds anew equal those of the comparison, and no selected code lacks a descriptor |
| `DiffViews.FindRow` | backend/app/features/backbone_diff/provider.py:812-818 | returns a row with the given reference, or fails iff no row has it |
| `DiffViews.ListCellItems` | backend/app/features/backbone_diff/provider.py:644-655 | the loop lists the visible cells' items in order, or fails with the first failing cell's error |
| `DiffViews.ListBranchRows` | backend/app/features/backbone_diff/provider.py:607-642 | the loop lists exactly the rows with a visible cell or visible metadata, or reports the first cell or token that cannot be shown |
| `DiffViews.ProjectRoot` | backend/app/features/backbone_diff/provider.py:371-507 | the counting loops give each layer's filtered and full counts and the first previews up to the limit, each with its tokens, or fail over a token that is too long |
| `DiffViews.SelectWithinBudget` | backend/app/features/backbone_diff/provider.py:761-795 | the budget loop selects items up to the first that does not fit, or reports that the first is too large |
| `DiffViews.PageRows` | backend/app/features/backbone_diff/provider.py:707-732 | a condition page is the specified one, or fails iff a token of the response is too long |
| `DiffViews.PageCells` | backend/app/features/backbone_diff/provider.py:734-759 | a cell page is the specified one, or fails over an item that is too large or a token that is too long |
| `DiffViewLaws.PredicatesAgree` | backend/app/features/backbone_diff/provider.py:509-705 | the two filter predicates agree on every cell of a comparison although they choose category authority differently, and no lookup fails |
| `DiffViewLaws.RootAgreesWithDrillDown` | backend/app/features/backbone_diff/provider.py:371-705 | for every filter the drill-down fails iff a shown value or a token of a listed row is too long; otherwise a layer's row count is the number of condition items and its cell count the sum of their filtered cells; the root view of a layer fails only over a preview's tokens |
| `DiffViewLaws.RowRefsDistinct` | backend/app/features/backbone_diff/provider.py:820-843 | no two rows of a comparison share a row reference |
| `PageWalks.CursorReadBack` | backend/app/features/backbone_diff/service.py:173-183 | a cursor of a valid scope and key is read back by a request of its scope iff its token has at most 4096 characters, and refused otherwise |
| `PageWalks.ShortCursorBytes` | backend/app/features/backbone_diff/cursor.py:62-69 | a cursor token has at most 4096 characters iff the text behind it has at most 3072 bytes |
| `PageWalks.TokensFollowKeys` | backend/app/features/backbone_diff/provider.py:707-759 | every token that such pages hand out is read back: following tokens equals following keys, in value and in failure |
| `PageWalks.ConditionPagesCollect` | backend/app/features/backbone_diff/provider.py:707-732 | following the tokens of condition pages with any limits fails iff a page on the way would carry a cursor token over 4096 characters, and else gives every condition item exactly once in order and ends with the last |
| `PageWalks.EveryConditionWalk` | backend/app/features/backbone_diff/provider.py:707-732 | no walk, whatever its limits, meets such a token iff the cursor behind every item but the last is short enough |
| `PageWalks.CellPageAt` | backend/app/features/backbone_diff/provider.py:734-810 | a cell page is the longest run of next items within 256 KiB, not empty while items remain, its cursor stands behind it; it fails iff the next item alone is too large or that cursor's token is too long |
| `PageWalks.CellPagesCollect` | backend/app/features/backbone_diff/provider.py:734-795 | following the tokens of cell pages of strictly ordered items fails iff a page on the way cannot be built, over an item that is too large or a cursor that is too long, and else gives every item once in order and ends with the last |
| `PageWalks.EveryCellWalk` | backend/app/features/backbone_diff/provider.py:734-810 | no walk of cell pages fails, whatever its limits, iff every item fits alone and the cursor behind every item but the last is short enough |
| `PageWalks.RowCellsPage` | backend/app/features/backbone_diff/provider.py:644-655 | cell items of matched and added rows are strictly ordered with keys a cursor may carry, and of removed rows when the column orders agree |
| `PageLosses.RemovedRowLosesCells` | backend/app/features/backbone_diff/provider.py:734-795 | followed through tokens, a removed row's cell pages lose nothing if the listed items are in order, and else asking for one at a time ends incomplete unless a page cannot be built; unfiltered, they are in order iff the column orders agree |
| `PageLosses.SwappedLayerLosesACell` | backend/app/features/backbone_diff/provider.py:734-795 | two swapped columns make the pages of a removed row, followed through tokens, end without one of its two cells |
| `PageLimits.ConditionCursorsShort` | backend/app/features/backbone_diff/provider.py:707-732 | where a layer's condition items can be built, no cursor behind one of them is too long, for condition indexes below 10^18 |
| `PageLimits.ConditionWalksSucceed` | backend/app/features/backbone_diff/provider.py:707-732 | so no walk of condition pages through tokens fails, and each collects its items in order |
| `PageLimits.LongConditionPage` | backend/app/features/backbone_diff/schema.py:165-184 | a valid layer with a long key whose root view counts one row and hands out a scope, and whose condition page cannot be built because the row's cell scope token is too long |
| `PageLimits.LongCellPage` | backend/app/features/backbone_diff/schema.py:206-211 | a valid layer whose condition page is built and hands out a cell scope, whose first cell page of one item cannot be built because its cursor token is too long |
| `Json.LoadDumped` | backend/app/features/backbone_diff/cursor.py:62-76 | loading the dump of a value with sorted keys gives it back |
| `Bytes.DecodeEncodedText` | backend/app/features/backbone_diff/cursor.py:63-64 | decoding encoded UTF-8 gives the text back |
| `Bytes.Decode64Encoded` | backend/app/features/backbone_diff/cursor.py:62-75 | decoding unpadded base64url (section 5 of RFC 4648) gives the bytes back |
| `Tokens.ScopeTokens` | backend/app/features/backbone_diff/cursor.py:715-727 | a text decodes to a scope iff the scope is valid, the text is its encoding and is at most 4096 characters |
| `Tokens.RowRefTokens` | backend/app/features/backbone_diff/cursor.py:730-741 | a text decodes to a row reference iff the reference is valid, the text is its encoding and is at most 4096 characters |
| `Tokens.CursorTokens` | backend/app/features/backbone_diff/cursor.py:744-752 | a text decodes to a cursor iff the cursor is valid, the text is its encoding and is at most 4096 characters |
| `Tokens.CursorTokensIdentify` | backend/app/features/backbone_diff/cursor.py:744-745 | different valid cursors have different tokens, whatever their length |
| `Tokens.TokenFits` | backend/app/features/backbone_diff/cursor.py:62-69 | a token is short enough to be decoded iff its payload has at most 3072 bytes |
| `Tokens.RowRefTypeErrors` | backend/app/features/backbone_diff/cursor.py:609-621 | decoding a row reference ends in a type error iff the payload loads, in any detected encoding, with a version equal to one and kind row_ref, and its row status is a list or an object |
| `Tokens.ScopeTypeErrors` | backend/app/features/backbone_diff/cursor.py:526-606 | decoding a scope does iff it is a cell scope, sound up to its row reference, whose row reference has such a status |
| `Tokens.CursorTypeErrors` | backend/app/features/backbone_diff/cursor.py:691-712 | decoding a cursor does iff its kind is a list or an object, or its scope has such a row status and is reached |
| `Tokens.ListStatusIsATypeError` | backend/app/features/backbone_diff/cursor.py:618-621 | a short row reference token whose status is an empty list |
| `Tokens.ListKindIsATypeError` | backend/app/features/backbone_diff/cursor.py:694-696 | a short cursor token whose kind is an empty list |
| `Calendar.CivilDaysCounts` | frontend/src/api/historyQuery.ts:402-415 | the day number equals counting years and months by their lengths |
| `Calendar.EpochIsDayZero` | frontend/src/api/historyQuery.ts:402-415 | 1 January 1970 is day 0 |
| `Calendar.NextDayNumber` | frontend/src/api/historyQuery.ts:402-415 | each day's number is one more than the number of the day before |
| `Calendar.DayNumbersOrderDates` | frontend/src/api/historyQuery.ts:402-415 | day numbers order valid dates strictly, and no two dates share one |
| `Calendar.ParsedPartsValid` | frontend/src/api/historyQuery.ts:305-346 | an accepted datetime has a valid date, clock and offset |
| `Calendar.CompareOrdersInstants` | frontend/src/api/historyQuery.ts:289-292 | the comparison is negative, zero or positive as the UTC calendar readings of the two texts are ordered |
| `Calendar.ExactInDoubles` | frontend/src/api/historyQuery.ts:390-400 | day numbers and millisecond values stay within the integers a double holds exactly |
| `ChoiceOptions.FetchAll` | frontend/src/api/choiceSets.ts:119-193 | against any server a returned aggregate has one version, one cursor-linked chain of pages from a single attempt, no duplicate code and at most two restarts; giving up has a reason that was seen |
| `ChoiceOptions.HonestAggregate` | frontend/src/api/choiceSets.ts:119-193 | against an honest keyset server that changes between requests the aggregate is the full option list of a version it held |
| `ChoiceOptions.HonestPagesFit` | backend/app/features/choice_sets/service.py:89-133 | an honest server answers a request of the client with the asked version or with the version it holds now |

## Left out

- Database sessions, queries, transactions, edit locks, change events and request handling: a transaction is one atomic step on the store, a refused one changes nothing.
- Digests are injective functions of their content; identifiers come from counters; clock readings are inputs or absent.
- The project profile that a revision copies field by field: wide and without branching.
- Comments, roles, permissions and maintenance gates.
- General JSON and general regular expressions: a JSON number with a fraction or an exponent is known only up to whether it rounds to one, which is all that is ever asked of it, and only the accepted pattern subset has a meaning.
- Lone surrogates in texts: a Dafny character is a Unicode scalar value.
- The output schemas (backend/app/features/backbone_diff/schema.py) beyond value and token lengths: their other text limits are no shorter than the stored columns, and outer whitespace, which they strip from keys, codes and names, is kept here.
- Basis bytes of a layer: the basis is the content whose JSON text is hashed, with the current conditions and their source kept as values.
- The preview items of a comparison itself (backend/app/domain/backbone/diff.py:1112-1162): the provider builds its own previews, which are modelled.
- Pattern.CompilePattern: the host engine is taken to compile every source of the accepted subset, so its own error branch is absent.
- A capture time written with digits outside ASCII is refused here, where the program raises a value error; JSON nested beyond the interpreter's recursion limit is read here, where the program raises a recursion error.
- Row ids of a created or edited sheet: a new row's id is any number the database has not given out yet, and a row never moves between projects.
- Layer matching, CSV import planning, the choice-set editor and the user interface.
- ChoiceOptions.FetchAll: a set code that is not URL-safe is a failing request; the shape check of a page is one reply value.
- DiffEngine.ComparePreparedLayer: candidate lists hold the prepared conditions that the program looks up by id.
- DiffViews.ProjectRoot: the root response's own scope token is not part; it holds short filter texts only.
- Tokens.RowRefTypeErrors: a payload with a lone surrogate in a text does not load here; the program loads it, ends in the same type errors, and where its other checks pass raises an encoding error when it encodes the decoded value again.
- Tokens.ScopeTypeErrors: the same.
- Tokens.CursorTypeErrors: the same.
- PageLimits.ConditionCursorsShort: condition indexes of 10^18 and more; the column is a database integer.
- Calendar.ExactInDoubles: the arithmetic is on integers; this bound is why doubles compute the same.
