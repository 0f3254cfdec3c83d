# A verified model of the control plane's stores and protocols

The repository is a control plane for small commerce businesses: it collects daily
reports from connectors, turns them into operational cases that operators work on, plans
workflow actions that a person must approve, executes the approved ones against external
providers, and answers customers over WhatsApp. Its state lives in small stores written by
hand. This project models those stores, the protocols between them, and two pairs of a
printer and a parser, and proves what each keeps over whole runs and for every input.

How to read it:

- **Cases.** `Cases` holds the records and the four mutations, `CaseHistory` an independent
  reading of timelines that refuses illegal ones, `CaseStore` whole runs of operations,
  `CaseListing`, `MemoryCaseStore` and `SqlCaseStore` the dictionary store and the SQLite table
  that refines it, `Calendar` the text form of instants, `Histograms` the latency reports, and
  `Detections` and `CaseIngest` the way a report becomes cases; `DetectionContent` says what each
  detection carries and where it comes from.
- **JQL-lite.** `JqlSyntax` is the parser, following the program's regular expressions, and the
  printer. `JqlWords` to `JqlPrinted` build up to `JqlRoundTrip`; `JqlWitness` is a query whose
  printed form cannot be read. `JqlDefault`, `JqlJoined` and `JqlOrdered` are about texts in any
  accepted spelling: all clauses are read, AND joins them, ORDER BY orders them; `JqlSpelling` about
  the spellings of one clause and what is refused. `JqlQuery` matches, sorts and pages; `JqlMeaning`
  says what that means in the fields of the cases.
- **Approval-gated actions.** `WorkflowLedger`, `ActionCatalog`, `WorkflowQueues` and
  `WorkflowPlanner` plan and approve; `PlannerRules` says which rules are accepted, `PlannerKeys` what a
  simulation plans and skips, and `LedgerRecords` what the ledger writes down. `RunLedger` and
  `ExternalActions` execute; `ActionAudit` says what each execution leaves on record;
  `GuardedExecution` runs all of them together against one event log. `ConditionQueries` relates
  workflow conditions to queries.
- **The rest.** `Debounce` (the webhook's timers), `ConnectorLedger` (the connector audit log),
  `ReportMerge`, `Scheduler`, `Numbers` (printed amounts read back), over `Basics`, `Text`,
  `Decimals` and `Sorting`.

State that the program changes in place is a class whose methods are proved equal to functions of
the old state; the lemmas are about those functions and about runs of them. Clock readings,
generated ids, provider replies, digests and fingerprints are arguments. Where a digest must not
collide, that is a hypothesis on the keys in play (`WorkflowLedger.DigestsApart`,
`PlannerKeys.FingerprintsApart`).

Promises that turned out to hold only under a condition are stated with the exact condition:

- A printed query reads back as the same query exactly when it has a clause, no clause but the
  last compares with the word AND (quotes admit it; printing drops them), and the text has at
  most 512 characters. A blank query prints as an ORDER BY that does not parse.
- A printed amount reads back exactly above -1000: the sign stops the sheet parser from
  recognising dot grouping, so -1234 comes back as -1.234 and -1234567 not at all.
- The two case stores list the same sequence except under a negative limit that meets a selected
  case; one stored case and the limit -1 already differ.
- Debounced texts have had their full quiet period when they are taken exactly when the registered
  timer's own delay has run out, which the lock section does not check: a timer that cancel reached
  too late can take a text early, and can also take one that has waited long enough.
- Two queries joined with AND give the clauses of both exactly when the first does not itself end in
  the word AND, there are at most eight clauses, and the text fits.
- A connector run is reported open exactly when it is unfinished, except a run id begun again
  after it ended.

The round trips, the listings, the timers and the connector runs also have a lemma at a concrete
failing input.

Run `dafny verify dfyconfig.toml`.

## Model

| member | source | states |
|---|---|---|
| Cases.UniqueStrings | app/brain/operational_cases.py:96-103 | the seen-set loop computes the first occurrence of every value in order of arrival |
| Cases.UniqueSnapshots | app/brain/operational_cases.py:390-398 | the loop keeps the first snapshot of every key |
| Cases.CanonicalSnapshotIds | app/brain/operational_cases.py:401-414 | the dictionary and loop give the stored id of each requested key, each id once |
| CaseHistory.CanonicalIdsAreHeld | app/brain/operational_cases.py:401-414 | every id given is the id of a snapshot the case holds, without repetition, and every held key's id is given |
| CaseHistory.OpenIsSound | app/brain/operational_cases.py:545-602 | a detection without a case always opens a sound one: valid lifecycle times, a timeline that replays to its fields, distinct evidence, references held |
| CaseHistory.OpenRecords | app/brain/operational_cases.py:552-602 | a first detection opens a case with its title, severity, priority, scope, family, metadata and run, holding exactly its run id, evidence, artifacts and snapshots; its one event is an opening by the system at that time naming the id of every snapshot |
| CaseHistory.OwnSnapshots | app/brain/operational_cases.py:464-471 | a detection with snapshots brings those, the first of each key, and no other |
| CaseHistory.MinimalOnes | app/brain/operational_cases.py:436-481 | a detection without snapshots brings one for each evidence reference and no other, with its title, run, first artifact and scope, no metrics and unknown freshness |
| CaseHistory.UpsertIsSound | app/brain/operational_cases.py:545-635 | updating or reopening a sound case gives a sound case that only grew: its old lists are prefixes of the new ones |
| CaseHistory.UpsertRecords | app/brain/operational_cases.py:604-635 | the case then holds what it held and what the detection brings and nothing else; title, severity, priority are new, scope and run when given, metadata values too; a closed case is open again without its closing times; the one event added is an update, or a reopening exactly when the case was closed, naming exactly the stored ids of the snapshots the detection brings |
| CaseHistory.TransitionIsSound | app/brain/operational_cases.py:637-681 | a successful transition keeps the case sound: the new event is an edge of the table and rebuilds every lifecycle field, names actor, both statuses and the stripped reason or a text of its own, and nothing else moves |
| CaseHistory.TransitionAllowed | app/brain/operational_cases.py:61-67 | a transition succeeds if and only if it moves an open case forward, not from open to resolved, is not before the opening, and carries a reason when an operator closes the case; the error says which |
| CaseHistory.CommentIsSound | app/brain/operational_cases.py:683-718 | a comment keeps the case sound, adds one event with its actor, stripped text and metadata, and moves only the update time and the timeline |
| CaseHistory.AssignIsSound | app/brain/operational_cases.py:720-758 | an assignment keeps the case sound, stores the stripped assignee and the time, adds one event naming them and the actor, and moves nothing else |
| CaseHistory.CommentAndAssignAllowed | app/brain/operational_cases.py:693-745 | a comment is taken if and only if it is not blank and an assignment if and only if the case is open and the name is not blank, neither before the opening; the error says which |
| CaseHistory.StoredIdIsKept | app/brain/operational_cases.py:401-414 | a snapshot key resolves to the id it was first stored with, however often it is detected again |
| CaseHistory.DismissalIsRecorded | app/brain/operational_cases.py:106-126 | in every legal timeline that ends dismissed, the backward search finds exactly the dismissal time, also after reopenings and later comments |
| CaseHistory.BackfillRestores | app/brain/operational_cases.py:106-126 | loading a sound case with its dismissal time erased gives the case back, never by the update-time fallback; every other case loads unchanged |
| CaseStore.ResultIsSound | app/brain/operational_cases.py:539-758 | every operation that succeeds on a consistent store gives a sound case that continues the one it loaded |
| CaseStore.ReachableIsConsistent | app/brain/operational_cases.py:535-793 | over every sequence of operations with fresh ids the store holds sound cases, one per id and at most one per business and dedupe key |
| CaseStore.HistoryOnlyGrows | app/brain/operational_cases.py:545-758 | over every continuation of a run each case stays, keeps its identity, only appends to its evidence, snapshots and timeline, and every snapshot key keeps its first id |
| CaseStore.ReachableCases | app/brain/operational_cases.py:347-371 | in every reachable store folding the timeline rebuilds the eight lifecycle fields, references are held, evidence has no repetition, resolved cases were acknowledged, and erasing a dismissal time loses nothing |
| MemoryCaseStore.InMemoryCaseStore.UpsertDetection | app/brain/operational_cases.py:545-635 | the new store is the specification's, the result too, and an operation that fails leaves the store as it was |
| MemoryCaseStore.InMemoryCaseStore.TransitionCase | app/brain/operational_cases.py:637-681 | same, for a transition |
| MemoryCaseStore.InMemoryCaseStore.CommentOnCase | app/brain/operational_cases.py:683-718 | same, for a comment |
| MemoryCaseStore.InMemoryCaseStore.AssignCase | app/brain/operational_cases.py:720-758 | same, for an assignment |
| MemoryCaseStore.InMemoryCaseStore.ListCases | app/brain/operational_cases.py:778-793 | lists selected cases, higher priority first, then earlier opening, then smaller id; without a limit all of them, with one that is not negative the first so many, with a negative one all but the last so many |
| Calendar.IsoOrder | app/brain/operational_cases.py:800-819 | the isoformat text of UTC instants with an optional fraction is ordered as the instants are |
| Calendar.FieldsTellTheTime | app/brain/operational_cases.py:800-819 | the date and clock fields of an instant are those of the Gregorian calendar and add up to it |
| SqlCaseStore.ReplaceMirrors | app/brain/operational_cases.py:800-819 | replacing a row under the primary key and the unique key mirrors the dictionary update and evicts no other case's row |
| SqlCaseStore.TableRefinesDictionary | app/brain/operational_cases.py:796-861 | over every sequence of operations the table mirrors the dictionary row for case, denormalised columns included, and every operation gives the same result |
| SqlCaseStore.ReachableListsAgree | app/brain/operational_cases.py:838-861 | both stores list the same sequence for every filter if and only if the limit is absent or non-negative or nothing is selected |
| SqlCaseStore.NegativeLimitDiffers | app/brain/operational_cases.py:778-793 | one stored case and the limit -1: the dictionary lists nothing, the table lists the case |
| SqlCaseStore.SQLiteCaseStore.Perform | app/brain/operational_cases.py:800-836 | the table object runs each operation as the table specification says |
| CaseListing.ListsAgree | app/brain/storage.py:71-82 | any table that mirrors a consistent dictionary lists as it does, under the same exact condition on the limit |
| Detections.DetectCases | app/brain/operational_cases.py:1153-1222 | the loops with a seen-set compute the report's detections, first occurrence of each key |
| Detections.FindValue | app/brain/operational_cases.py:930-935 | the loop gives the value of the first metric with the canonical key that cites the source |
| Detections.CaseEvidenceMetrics | app/brain/operational_cases.py:1026-1055 | the loop with a seen-set captures the first metric of each canonical key, each key once |
| Detections.EvidenceMetricsExactly | app/brain/operational_cases.py:1026-1055 | a canonical key is captured for a source if and only if some metric of the report resolves to it, counts for the case family and cites the source, and it is captured as one of those reports it |
| Detections.DetectionCoverage | app/brain/operational_cases.py:965-971 | detection keys are distinct, and a key is detected if and only if some insight raises it: its own key when none of its sources is stale, else the stale-data keys of its stale sources |
| DetectionContent.ContainsExactly | app/brain/operational_cases.py:869-884 | the title mentions a word if and only if it occurs somewhere in it |
| DetectionContent.FamiliesExactly | app/brain/operational_cases.py:868-885 | which words of the title raise which case family, the first that occurs deciding; information raises nothing |
| DetectionContent.FirstReported | app/brain/operational_cases.py:930-935 | the value found for a source is that of the first metric with the canonical key that cites the source, and none exactly when no metric does |
| DetectionContent.FreshnessExactly | app/brain/operational_cases.py:938-962 | the state of a source is what its status word names, and otherwise unknown without a readable age, fresh below six hours, degraded below a day, stale from a day on |
| DetectionContent.StaleExactly | app/brain/operational_cases.py:938-971 | a source is stale if and only if its status names trouble or is off, or the status says nothing and it is at least six hours old |
| DetectionContent.KeyNamesItsScope | app/brain/operational_cases.py:888-910 | the dedupe key of a raised family names the family, the kind and id of the entity in its scope, and the metric |
| DetectionContent.ReferenceNamesItsParts | app/brain/operational_cases.py:913-915 | an evidence reference splits into source, day and family |
| DetectionContent.FirstCaption | app/brain/operational_cases.py:985 | the label of a source is that of its first evidence entry, and the source itself when it has none |
| DetectionContent.DetectionsSay | app/brain/operational_cases.py:1153-1222 | every detection comes from the first insight that raises its key: its own case when none of its sources is stale, with one reference per distinct source, a snapshot per reference with the source's label, state and metrics, and priority by severity; else the stale-data case of one of its stale sources |
| DetectionContent.CapturedIsFirst | app/brain/operational_cases.py:1026-1055 | each captured metric is the first of the report that counts under its key, with that metric's value, unit and label |
| CaseIngest.UpsertCases | app/brain/operational_cases.py:1232-1259 | the loop over a report's detections against the store object is the stepwise specification, stopping at the first rejected write |
| CaseIngest.IngestAccounts | app/brain/operational_cases.py:1232-1259 | opened plus updated is the number of detections stored, the store grows by exactly opened, other businesses are untouched, no case is lost |
| CaseIngest.IngestNamesItsCases | app/brain/operational_cases.py:1240-1259 | the ids handed back are, in order, those of the cases held under the keys of the detections |
| CaseIngest.RejectedExactlyWhenEarly | app/brain/operational_cases.py:347-371 | a detection is rejected if and only if its clock reading precedes the opening of the case it updates |
| CaseIngest.ReprocessingOpensNothing | app/brain/operational_cases.py:1153-1259 | processing the same report again on any store that continues the first opens no case |
| Histograms.HandlingHistogram | app/brain/operator_api/histograms_handling.py:7-74 | total, buckets and severity splits count exactly the cases they name; fastest and slowest are the first listed extremes |
| Histograms.ResolutionHistogram | app/brain/operator_api/histograms_resolution.py:7-70 | the same for the time from opening to resolution |
| Histograms.LatenciesSay | app/brain/operator_api/histograms_handling.py:34-40 | handling is timed from acknowledgement and resolution from opening, in whole seconds, never negative, exactly for cases that have the instants |
| Histograms.BusinessCasesExactly | app/brain/operator_api/histograms_handling.py:34 | the cases counted are exactly those of the business, in listing order |
| Histograms.BucketIntervals | app/brain/operator_api/common.py:129-155 | every age falls in exactly the bucket between two horizons |
| Histograms.BucketsSumToTotal | app/brain/operator_api/histograms_handling.py:22-50 | bucket counts add up to the total |
| Histograms.SplitsSumToBucket | app/brain/operator_api/histograms_handling.py:22-50 | each severity split adds up to its bucket |
| Histograms.HandledEqualsResolved | app/brain/operational_cases.py:672-675 | in every reachable store the handled total of a business is its resolved total, and no case takes longer to handle than to resolve |
| JqlSyntax.ReadOrder | app/brain/operator_views.py:232-244 | the loop over order entries collects them or stops at the first bad one |
| JqlGood.ParsedIsGood | app/brain/operator_views.py:172-193 | whatever parses has at most 8 clauses over known fields with allowed operators and at most 20 values, each printing to acceptable text that reads back as itself; there is no clause only for blank text |
| JqlPrinted.ClauseParsesBack | app/brain/operator_views.py:247-264 | the printed text of every well-formed clause parses to that clause |
| JqlParens.NoStrayParen | app/brain/operator_views.py:182-187 | no parenthesis of printed clauses is stray once the lists are taken out |
| JqlRoundTrip.OrderReads | app/brain/operator_views.py:232-244 | printed order entries read back as the same order |
| JqlRoundTrip.PrintedQuery | app/brain/operator_views.py:64-76 | printing any well-formed query and parsing it gives the same clauses and order when it prints readably, and an error otherwise |
| JqlRoundTrip.RoundTrip | app/brain/operator_views.py:172-193 | for every text that parses, its canonical text reads back as the same query if and only if there is a clause, no clause but the last compares with AND, and it fits in 512 characters |
| JqlRoundTrip.NormalizedIsFixed | app/brain/operator_views.py:64-76 | printing is canonical: reading the printed text and printing again changes nothing |
| JqlWitness.QuotedAndDoesNotRoundTrip | app/brain/operator_views.py:189-190 | a concrete query with a quoted AND parses, and its canonical text does not |
| JqlDefault.BodyParsesBack | app/brain/operator_views.py:172-193 | clauses joined by AND without ORDER BY are read back, all and in order, under priority_score DESC, opened_at ASC, if and only if they are at most eight, no clause but the last compares with AND, and the text fits |
| JqlOrdered.AndLaw | app/brain/operator_views.py:182-193 | for any two accepted texts without ORDER BY and any spelling of AND between them, the clauses are those of the first followed by those of the second, if and only if the first does not end in AND, there are at most eight, and the text fits |
| JqlOrdered.PlainAndLaw | app/brain/operator_views.py:189-193 | the same for the word as it is printed |
| JqlOrdered.OrderLaw | app/brain/operator_views.py:225-244 | for any accepted text without ORDER BY, any spelling of ORDER BY and any acceptable order text on one line, the clauses are those of the text under the order the order text says, or its error |
| JqlOrdered.OrderSpellings | app/brain/operator_views.py:232-244 | an order text reads the same with any whitespace around its entries and their words and with directions in any letter case |
| JqlSpelling.ComparisonSpellings | app/brain/operator_views.py:257-264 | a comparison reads the same with any whitespace around its operator and its value bare or in either kind of quotes |
| JqlSpelling.ListSpellings | app/brain/operator_views.py:247-256 | a list clause reads the same with IN in any letter case, any whitespace around keyword and items, and each item bare or quoted |
| JqlSpelling.TooManyValues | app/brain/operator_views.py:250-254 | more than twenty values are refused |
| JqlSpelling.FieldsTake | app/brain/operator_views.py:79-98 | which fields are known and which operators each takes: equality all, lists those of text, order comparisons those of numbers and instants; the error says whether field or operator is at fault |
| JqlSpelling.RefusesText | app/brain/operator_views.py:176-181 | text over 512 characters is refused as too long, and shorter text with a statement end, a comment mark or a forbidden whole word anywhere as invalid |
| JqlSpelling.RefusesUnclosed | app/brain/operator_views.py:182-187 | a parenthesis that is opened and never closed is refused |
| JqlQuery.SortCases | app/brain/operator_views.py:385-397 | re-sorting in place per key, last key first, computes the multi-pass sort, whose order in the fields of the cases is SortedIsTheArrangement |
| JqlQuery.SortedIsTheArrangement | app/brain/operator_views.py:385-391 | with distinct case ids the result is the one permutation in which, of two cases, the first order entry on which they differ puts the larger value first for DESC and the smaller for ASC, and the smaller id when none does |
| JqlQuery.QueryCaseQueue | app/brain/operator_views.py:196-222 | the request succeeds if and only if query and limit are readable, the query's error first; the page then has at most the limit of cases and is the specified answer |
| JqlQuery.AnswerIgnoresArrival | app/brain/operator_views.py:196-222 | the answer does not depend on the order the store lists candidates in |
| JqlQuery.PageIsTheBest | app/brain/operator_views.py:206-219 | a matching case that is not shown means a full page, marked truncated, and every case shown comes before it: the first order entry on which they differ decides, then the smaller id |
| JqlMeaning.PageShows | app/brain/operator_views.py:196-222 | a page shows matching cases in the order asked for, as many as there are up to the limit, and the total counts all that match |
| JqlMeaning.LimitReads | app/brain/operator_api/common.py:57-66 | fifty without a limit text; a printed number asks for as many, at most a hundred, and is refused below one |
| JqlMeaning.NamedFields | app/brain/operator_views.py:367-382 | equality on status, severity and case type selects the cases that have the named one |
| JqlMeaning.TextFields | app/brain/operator_views.py:367-382 | equality on project, assignee, latest run and dedupe key compares the case's own text, a missing one equalling none |
| JqlMeaning.EntityFields | app/brain/operator_views.py:368-373 | equality on entity kind, id and label compares that entry of the scope |
| JqlMeaning.EvidenceFields | app/brain/operator_views.py:351-375 | a connector is a source when some snapshot names it; degraded asks for a stale, degraded or missing snapshot |
| JqlMeaning.ResolvedField | app/brain/operator_views.py:326-348 | a case without a resolution time is not before, at or after any instant |
| JqlMeaning.OrderedFields | app/brain/operator_views.py:326-348 | the six comparisons on priority, opening and update time compare the case's own value |
| JqlMeaning.Vocabularies | app/brain/operator_views.py:36-39 | the values accepted for status, status category and severity are exactly those cases have |
| JqlMeaning.TypeVocabulary | app/brain/operator_views.py:36-39 | the values accepted for the case type are exactly the case types |
| JqlQuery.StoresAnswerAlike | app/brain/operator_views.py:196-222 | after any run both stores answer every query alike |
| JqlQuery.CanonicalTextAnswersAlike | app/brain/operator_views.py:64-76 | asking with the canonical text gives the same answer |
| ConditionQueries.RuleSelectsAsQuery | app/brain/workflow_automation.py:115-142 | a rule whose conditions can be asked as clauses applies to exactly the cases the query selects |
| Sorting.MultiPassIsLexicographic | app/brain/operator_views.py:385-391 | stable sorts from the last key to the first sort lexicographically and lose nothing |
| Sorting.SortedArrangementIsUnique | app/brain/operator_views.py:385-391 | a list without ties has one sorted arrangement |
| WorkflowLedger.InMemoryWorkflowActionLedger.RecordPlannedAction | app/brain/workflow_action_ledger.py:241-299 | a known key returns its record and changes nothing; a new one adds its record and, when gated, its request |
| WorkflowLedger.InMemoryWorkflowActionLedger.DecideApprovalRequest | app/brain/workflow_action_ledger.py:307-362 | result and new ledger are the specification's; a refused decision changes nothing |
| WorkflowLedger.ReachableIsTraced | app/brain/workflow_action_ledger.py:241-362 | every record and its request are as one planning step made them, or as one later decision on that request left them |
| WorkflowLedger.ReachableLockStep | app/brain/workflow_action_ledger.py:174-177 | each request belongs to exactly one record, and request status, approval state and execution state are pending/pending/as planned, approved/approved/pending_execution or rejected/rejected/failed |
| WorkflowLedger.DecisionOutcome | app/brain/workflow_action_ledger.py:317-336 | a decision succeeds if and only if it is known and its request is pending and of that business; its record is always found; a refused one changes nothing |
| WorkflowLedger.DecisionChangesOne | app/brain/workflow_action_ledger.py:337-354 | a decision that succeeds changes its request and the one record that owns it and nothing else |
| WorkflowLedger.DecidedOnce | app/brain/workflow_action_ledger.py:320-324 | in every run no request is decided twice; the second try reports the first decision |
| WorkflowLedger.ApprovalHasADecision | app/brain/workflow_action_ledger.py:337-354 | every approved record was approved by a decision made after it was planned |
| LedgerRecords.PlanningRecords | app/brain/workflow_action_ledger.py:241-299 | a known key gives its record back and changes nothing; a new one adds last a record with every field as asked, awaiting approval and with a pending request exactly when approval is required, and leaves every other record and request alone |
| LedgerRecords.DecidingRecords | app/brain/workflow_action_ledger.py:307-362 | a decision is refused for the first reason that applies, changing nothing; otherwise record and request say what was decided, by whom, when and why, both are handed back, and nothing else changes |
| WorkflowQueues.ListApprovalQueue | app/brain/workflow_approval_queue.py:78-121 | the page is a beginning of the queue, all of it when the limit allows, and the total is the length of the queue |
| WorkflowQueues.ListExecutionQueue | app/brain/workflow_execution_queue.py:63-95 | the page is a beginning of the queue, all of it when the limit allows, and the total is the length of the queue |
| LedgerRecords.PagesInTurn | app/brain/workflow_approval_queue.py:104-117 | the approval queue lists the oldest request first and the execution queue the oldest approval, by id at the same time; a page shows as many as the limit allows, none for a negative one, and counts the whole queue |
| WorkflowQueues.ApprovalQueueLists | app/brain/workflow_approval_queue.py:31-46 | a request stands in the approval queue if and only if it belongs to an action that awaits approval |
| WorkflowQueues.ExecutionQueueLists | app/brain/workflow_execution_queue.py:27-32 | a record stands in the execution queue if and only if its action is approved and awaits execution |
| WorkflowQueues.QueuesPartitionGatedActions | app/brain/workflow_execution_queue.py:78-84 | for records planned as the catalog says, the two queues and the rejected actions are disjoint and are together the gated actions |
| WorkflowQueues.DecisionMovesOne | app/brain/workflow_action_ledger.py:337-354 | each successful decision takes one action out of its business's approval queue and puts it where the decision says; no other queue changes |
| WorkflowQueues.QueueTotalsAddUp | app/brain/workflow_approval_queue.py:94-117 | the totals the two queues report and the rejected actions add up to the gated actions |
| WorkflowPlanner.NoProblemMeansRegistered | app/brain/workflow_automation.py:178-205 | a rule passes the action checks if and only if every action is registered, for the case type and with its parameters |
| PlannerRules.RegisteredExactly | app/brain/action_catalog.py:211-220 | the registered keys are those the catalog lists |
| PlannerRules.CatalogFollows | app/brain/action_catalog.py:69-211 | what the catalog asks of each action: exactly two are gated, three need a reason, one a comment, one an assignee, five are suggestions, and eight are for given case families |
| PlannerRules.ActionProblemExactly | app/brain/workflow_automation.py:149-205 | what is wrong with an action, the first that applies: unknown key, wrong case family, the one text it lacks |
| PlannerRules.RuleProblemExactly | app/brain/workflow_automation.py:178-205 | a rule is refused for another business, a blank id, an unknown trigger, or the problem of its first action that has one, in this order, and otherwise accepted |
| PlannerRules.EvaluatedInOrder | app/brain/workflow_automation.py:383-384 | conditions are evaluated in order up to the first that cannot be |
| PlannerRules.ConditionExactly | app/brain/workflow_automation.py:119-142 | what each condition asks of the case: equality of a named field, a least priority, or the flag |
| PlannerRules.SimulationVerdict | app/brain/workflow_automation.py:365-396 | a simulation fails with the problem of its rule or of its conditions, matches exactly when all conditions hold, and otherwise plans and skips nothing |
| WorkflowPlanner.DedupePlannedActions | app/brain/workflow_automation.py:301-362 | the loop with a seen-set and ledger writes, with or without a ledger, is the stepwise specification |
| WorkflowPlanner.SimulateCaseWorkflow | app/brain/workflow_automation.py:365-415 | result and ledger are the specification's, with or without a ledger; a rule that fails writes nothing |
| WorkflowPlanner.SimulationConserves | app/brain/workflow_automation.py:301-362 | planned plus skipped is the number of actions; planned keys are distinct and new, the ledger grows by exactly them, and no earlier record changes; rejected and unmatched rules change nothing |
| WorkflowPlanner.DryRunForetells | app/brain/workflow_automation.py:301-362 | without a ledger the same rules are accepted with the same verdict, each key is planned once, and on any ledger a run plans exactly the dry run's keys the ledger lacks |
| WorkflowPlanner.SimulationReports | app/brain/workflow_automation.py:228-265 | every action reported as planned is one of the rule's, its record is in the ledger, and it is blocked behind a pending request exactly when the catalog gates it |
| WorkflowPlanner.SimulationIsIdempotent | app/brain/workflow_action_ledger.py:256-259 | simulating the rule on the case again, at any time, by any actor and on any later ledger, plans nothing and changes nothing |
| WorkflowPlanner.ReplanningAChangedCase | app/brain/workflow_automation.py:301-362 | simulating again also plans nothing when the case has changed in the meantime |
| PlannerKeys.SimulationPlansExactlyTheNew | app/brain/workflow_automation.py:301-362 | after any history and with fingerprints that do not collide on what was simulated, a matched simulation plans exactly the actions the ledger has no record of for this business, rule, case, action key and parameters, each once, each record carrying them |
| PlannerKeys.FirstSimulationPlansAll | app/brain/workflow_automation.py:94-112 | the first simulation of a rule on a case plans each of its distinct actions, whatever was simulated on other cases or decided |
| PlannerKeys.SimulationSkipsOnlyTheKnown | app/brain/workflow_automation.py:317-352 | an action is skipped only for a record of the same business, rule, case, action key and parameters, whose ledger id is shown, or for an earlier equal action of the rule |
| PlannerKeys.KeySpellsItsSubject | app/brain/workflow_automation.py:94-112 | a key splits into business, rule, case, action key and fingerprint |
| WorkflowPlanner.ServiceRuns | app/brain/workflow_automation.py:208-213 | every history of simulations and decisions is a run of the ledger in which each action is gated as the catalog says |
| WorkflowPlanner.ServicePartition | app/brain/workflow_automation.py:208-213 | over every such history each gated action is in exactly one of approval queue, execution queue and rejected |
| RunLedger.InMemoryRunLedger.CreateRun | app/brain/run_ledger.py:283-307 | a run is created if and only if its ids are not empty and no run has its id; otherwise nothing changes |
| RunLedger.InMemoryRunLedger.UpdateRun | app/brain/run_ledger.py:313-349 | an update that is refused changes nothing; one that is accepted changes exactly the fields it names, in that run alone |
| RunLedger.InMemoryRunLedger.AppendConnectorOutcome | app/brain/run_ledger.py:351-356 | appends to an open run, refuses a missing or terminal one |
| RunLedger.UpdateAccepted | app/brain/run_ledger.py:322-349 | an update is accepted if and only if the run exists, is not a closed one being changed, and would be finished, at or after its start, exactly when terminal |
| RunLedger.ReachableRunsAreSound | app/brain/run_ledger.py:222-230 | over every sequence of operations runs are finished exactly when terminal and never before they started |
| RunLedger.RunsOnlyGrow | app/brain/run_ledger.py:309-356 | runs are never lost, outcomes only appended, and a terminal run never changes again |
| ExternalActions.FindApprovedWorkflowAction | app/brain/external_actions.py:236-260 | the loop returns the first record with the requested id if it authorises the request, else nothing |
| ExternalActions.ExecuteExternalAction | app/brain/external_actions.py:296-450 | result, whether the provider was called, and the outcomes recorded in the run are the specification's, in every branch; what that leaves is ActionAudit.ExecutionLeavesAudit |
| ActionAudit.ExecutionLeavesAudit | app/brain/external_actions.py:296-450 | over every reachable ledger the error is that of the first failing guard; the first three guards record nothing, the other four exactly one skipped outcome in an open run, under the request's key, with the guard's words and mark; without a failing guard the attempt and the end of the call are recorded with every field |
| ActionAudit.VerdictIsFirstFailing | app/brain/external_actions.py:131-394 | the checks in their order: malformed request, unknown run, other business, executed key, reserved toolkit, allowlist, missing approval, each told from request, run, provider and ledger |
| GuardedExecution.EveryCallIsGuarded | app/brain/external_actions.py:310-420 | over every interleaving of ledger operations, run changes, other connectors' outcomes and executions, each provider call directly follows its own attempt record, on an unexecuted key, in a run never closed before, and a write rests on an approved matching action |
| GuardedExecution.AtMostOnce | app/brain/external_actions.py:227-233 | in one run a key is recorded as executed at most once and the provider is not called for it afterwards |
| GuardedExecution.EveryCallEnds | app/brain/external_actions.py:407-450 | each call is followed at once by the record of its success or failure or by the loss of that record, and every outcome a run holds was logged |
| GuardedExecution.RepeatedCallsHadFailed | app/brain/external_actions.py:227-233 | when a key is called twice in one run, the earlier call failed or its end was never recorded |
| GuardedExecution.CalledAgainExactlyWhen | app/brain/external_actions.py:296-420 | after any history a request calls the provider if and only if it is cleared, its run is open and in scope, a write rests on an approved action, no other connector executed the key in the run, and every earlier call of the key failed or was never recorded as ended |
| GuardedExecution.WriteCallsWereApproved | app/brain/external_actions.py:236-260 | each write call was preceded by the planning of a matching gated action, then by a decision approving it, then by the call's own attempt record |
| GuardedExecution.CalledExactlyWhen | app/brain/external_actions.py:296-420 | the provider is called if and only if the request is cleared, its run is open, in scope and has not executed the key, and a write rests on an approved action |
| GuardedExecution.ExecutionEnds | app/brain/external_actions.py:407-450 | a success is reported and recorded exactly when the provider answered and the record was stored; a failed call leaves the key free |
| GuardedExecution.ExecutionReports | app/brain/external_actions.py:426-450 | a success hands on the provider's response, and its reference, approval and result keys are those on record |
| Debounce.Debouncer.Webhook | server.py:106-112 | the handler's lock section: cancel, buffer, register a new timer |
| Debounce.Debouncer.Process | server.py:160-165 | the callback's lock section: take the buffer and the registration, whoever's they are |
| Debounce.NothingLost | server.py:106-112 | under every interleaving, the batches taken for a phone followed by its buffer are the texts it sent, in order |
| Debounce.BufferedTextsHaveTimer | server.py:106-112 | a non-empty buffer has a registered timer of its phone that is armed or waiting; without an outstanding timer everything was taken |
| Debounce.RegisteredTimerDelivers | server.py:160-165 | letting the registered timer finish takes everything received |
| Debounce.QuietExactlyWhenRegisteredWaits | server.py:160-165 | when a waiting timer finds texts, the latest text's own delay has run out since it arrived if and only if the phone's registered timer is past its delay |
| Debounce.RegisteredTimerIsQuiet | server.py:106-112 | the registered timer never takes a text early |
| Debounce.LateCancelBreaksQuiet | server.py:107-108 | a concrete run where a timer that cancel reached too late takes a newer text while that text's own timer is still armed |
| Debounce.LateTimerMayBeQuiet | server.py:107-108 | a concrete run where such a timer takes texts that have all had their quiet period |
| Debounce.NoLateCancelKeepsQuiet | server.py:107-108 | without late cancels every batch is taken after its latest text's full delay |
| ConnectorLedger.LogIsNumbered | plugins/orvo_control_plane/runtime.py:145-171 | sequence numbers are 1 to n under every interleaving |
| ConnectorLedger.ConnectorRunLedger.RunSummaries | plugins/orvo_control_plane/runtime.py:209-248 | the grouping pass gives, in order of first appearance, exactly what summarising each run alone gives |
| ConnectorLedger.ConnectorRunLedger.OpenRuns | plugins/orvo_control_plane/runtime.py:254-256 | lists exactly the runs whose own summary is open |
| ConnectorLedger.ConnectorRunLedger.LastCompletedRun | plugins/orvo_control_plane/runtime.py:258-267 | the first of the latest finished runs of the connector |
| ConnectorLedger.OpenMeansUnfinished | plugins/orvo_control_plane/runtime.py:180-207 | a run is reported open exactly when unfinished, if and only if its id was not begun again after it ended |
| ConnectorLedger.ReusedRunIdLooksClosed | plugins/orvo_control_plane/runtime.py:180-207 | an id begun, ended and begun again is unfinished and reported closed |
| ConnectorLedger.InterleavedSummary | plugins/orvo_control_plane/runtime.py:180-207 | for interleaved runs with distinct ids, as far as their events reached the log, each summary tells its own run's times and connector, and the status and counts of a reply that kept the contract, a failure without counts otherwise |
| ConnectorLedger.Execute | plugins/orvo_control_plane/runtime.py:380-466 | a rejected call writes nothing; any other returns the adapter's outcome and adds to the ledger, if there is one, those of its two events that the ledger takes, a failing append being swallowed |
| ConnectorLedger.CompilesExactly | plugins/orvo_control_plane/runtime.py:311-363 | a request compiles if and only if its connector is registered, the operation and public keys are declared and the secret keys are those required; the first that fails is the error |
| ConnectorLedger.OutcomeExactly | plugins/orvo_control_plane/runtime.py:534-572 | the caller gets the adapter's answer when its status and evidence kinds are allowed, and otherwise a failure without evidence |
| ConnectorLedger.EventsSay | plugins/orvo_control_plane/runtime.py:380-466 | the two events of an execution say how it began and ended, with counts only for a reply that kept the contract |
| ReportMerge.MergeDailyReports | app/brain/report_merge_policy.py:55-85 | the nested loops over an ordered dictionary compute the merge |
| ReportMerge.MergeEvidence | app/brain/report_merge_policy.py:23-31 | appends evidence whose source and label are new |
| ReportMerge.MergedKeyOrder | app/brain/report_merge_policy.py:64-79 | merged keys are the distinct keys in first-seen order |
| ReportMerge.MergeIsIncremental | app/brain/report_merge_policy.py:55-85 | merging a batch equals merging its merged beginning with the rest, single reports included |
| ReportMerge.MergedMetricSummarizes | app/brain/report_merge_policy.py:34-52 | each merged metric sums the last run of same-unit numeric contributions of its key and has exactly that run's evidence, in order of arrival |
| ReportMerge.LastRunIsLongest | app/brain/report_merge_policy.py:34-52 | that run is the longest ending in which each contribution is numeric in the unit of the one before |
| ReportMerge.MergedReportSays | app/brain/report_merge_policy.py:55-85 | an empty batch is refused and a lone report without thresholds passes through; else the report has the first one's name and date, one summarizing metric per key in first-seen order, and the insights of those metrics |
| ReportMerge.SameUnitAddsUp | app/brain/report_merge_policy.py:34-52 | when every contribution is numeric with one unit the value is their sum and the evidence their union |
| Scheduler.NextDailyRunIsLeast | app/brain/scheduler.py:90-131 | the next fire time is the least later minute start at which polling fires, at most a day away |
| Scheduler.NextRunDefined | app/brain/scheduler.py:45-57 | there is a next fire time if and only if minute and hour parse and are in range, which the configuration guard ensures |
| Scheduler.DailyTextRunsThen | app/brain/scheduler.py:45-131 | a schedule written as minute then hour is accepted, runs next at the next local time that shows them, and polling fires then |
| Scheduler.DueSchedules | app/brain/scheduler.py:134-167 | lists the due schedules in order, and fails if and only if some enabled configured one has an unreadable expression |
| Scheduler.DueRunsExactly | app/brain/scheduler.py:134-167 | the runs of a batch are those of its due schedules, in order and once each, at the given instant |
| Scheduler.DueExactly | app/brain/scheduler.py:60-87 | a schedule is due if and only if it is enabled, its business is configured, its expression reads, and local time shows its hour and minute |
| Numbers.DottedShape | app/brain/adapters/google_sheets.py:58-75 | dot grouping in threes is always recognised by the sheet parser's pattern and ungroups to the number's digits |
| Numbers.AmountRoundTrip | app/brain/reporting.py:27-28 | printing an integral amount within float precision and parsing the cell gives it back if and only if it is above -1000 |
| Numbers.NegativeThousandMisread | app/brain/adapters/google_sheets.py:58-75 | -1234 prints as `ARS -1.234`, reaches the float reader as `-1.234` and does not read back |
| Numbers.CommaIsDecimal | app/brain/adapters/google_sheets.py:67-68 | with a comma the dots before it group and the comma is the decimal mark |
| Numbers.CellHolds | app/brain/adapters/google_sheets.py:63-75 | a blank cell holds no number, and one that reads as an integral number holds that integer |
| Decimals.ParsePrintedInt | app/brain/operator_views.py:287-292 | a printed integer reads back as itself |
| Decimals.IntegerSpellings | app/brain/operator_views.py:287-292 | whitespace around, either sign and leading zeros are accepted |
| Decimals.NumeralExactly | app/brain/operator_views.py:287-292 | a numeral is digits with single underscores between two of them |

## Left out

- Redaction: taken as the identity; no claim about secrecy.
- Field validation and coercion by the record library, JSON encoding and decoding: values arrive well typed; the checks written by hand are modelled.
- sha256, sha1 and uuid: arguments with hypotheses on the values in play.
- Datetime values: instants are integers; in JQL a datetime is an opaque number with a reading and a printing function, assumed to print ISO text that reads back (`JqlClean.HostAgrees`).
- Non-ASCII digits in integer and number parsing, and caseless matching beyond the letters that fold to ASCII ones.
- Case fields that hold lists or nested values in metadata: metadata maps text to text.
- Detections.DetectCases: the metric registry, lowering of text and float reading are arguments; the metadata lists of a detection (suggested action keys, affected and suppressed families, registry issues) are not carried, since metadata maps text to text here.
- Detections.DetectionCoverage: insight wording and title normalisation are not modelled.
- ReportMerge.SameUnitAddsUp: exact arithmetic; floating-point rounding is not modelled.
- Numbers.AmountRoundTrip: assumes of the float reader only that it reads integers below 2^53 exactly, one-dot text to within one, and refuses two dots.
- Scheduler.NextDailyRunIsLeast: fixed zone offset; daylight-saving changes are not modelled.
- GuardedExecution.AtMostOnce: per run, as in the code; the same approved action may be executed once in each of several runs, since the workflow record is never marked executed.
- GuardedExecution.EveryCallIsGuarded: executions are atomic with respect to each other and to run changes; two concurrent executions of one key are not modelled.
- ExternalActions.ExecuteExternalAction: payload and response map text to text; nested values are not modelled.
- Workflow conditions whose expected value is a floating-point number.
- The audit events of planned, skipped and decided workflow actions, and the queue projections: they repeat fields of the records and requests.
- The SQLite workflow ledger and SQLite run ledger: only the in-memory stores; the text order of their timestamps is not modelled.
- `cancelled` approvals, `executed` workflow records and run listing: declared in the source, reached by no operation modelled here.
- Artifact and dispatch outcomes of a run: same append rule as connector outcomes.
- The other histogram splits, ageing and stagnation summaries, and metric registry tables: the same loop shapes.
- HTTP clients, WhatsApp delivery, Flask routes, authentication, operator audit, connector adapters, Google credentials, the conversation graph, prompts and lead storage: I/O or thin wrappers.
- Races inside SQLite transactions and process crashes other than a lost final audit record.
