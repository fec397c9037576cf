# Verified model of the compliance reporting backend

This project models the part of the backend that decides what a compliance report says and when
one exists: ingestion of transaction rows, the rule engine, aggregation in 28-digit decimal
arithmetic, fingerprints, periods, and the two-transaction report-run protocol with its
idempotency check. `dafny verify dfyconfig.toml` checks everything.

The model is layered the way the backend is.

- **Pure pipeline.** `Rules`, `Aggregation`, `Fingerprint`, `ReportBuilder` and `Calendar` compute
  what the domain layer computes. `Decimals` spells out Python's default `Decimal` context
  (28 digits, roundTiesToEven, section 4.3.1 of IEEE 754-2008) and what the `Numeric(20, 4)` and
  `Numeric(18, 2)` columns make of a value. `AggregationLaws`, `RuleTables`, `Readings` and
  `ReportLaws` hold the promises.
- **Use cases as they run alone.** `Store` has sessions with pending writes over a committed
  database and the repositories; `ReportService`, `ScheduledReport`, `Ingestion`, `RejectionTrail`
  and `UploadService` are the imperative use cases, each tied to a function of its inputs.
- **Use cases as they run together.** `Protocol` is a state machine with one action per database
  interaction: any number of scheduled and API invocations, ingestion and sign-ups interleave
  freely, and any of them may raise or crash anywhere. `ProtocolInvariant` and `ProtocolSteps`
  find and keep its invariant; `ProtocolLaws`, `ProtocolProgress`, `ProtocolCompletion`,
  `CommittedReports` and `ProtocolWitnesses` draw the conclusions. `Uploads`, `UploadLaws` and
  `UploadProgress` do the same for uploads over PostgreSQL and MongoDB.
- **Values.** `Bson` models parsed upload values and their sanitising, and `BsonContent` what it keeps; `Strings`, `Sorting` and
  `Base` hold Python's string order, stable sort and list vocabulary.

Amounts are integer cents. A timestamp is a proleptic Gregorian date (section 3.2.1 of
ISO 8601:2004) and a microsecond of the UTC day. SHA-256 is an arbitrary function of the text.
Clock readings, identifiers, export paths and the order in which the database returns tied rows
are inputs.

## Assumptions

- READ COMMITTED: every query sees everything committed so far plus its own pending writes.
- A commit that raises has committed nothing.
- Logging never raises. `generate_report` logs after its final commit but inside the `try`; if
  that call raised, a COMPLETED run would be marked FAILED.
- Identifiers are fresh. Nothing is deleted, and users never change.
- Sign-up never takes the service account's reserved address (the e-mail check refuses its
  `.local` domain).
- Stored transactions obey their columns: magnitudes below 10^16, valid timestamps. `Ingestion`
  proves this of what it stores.
- Whether an invocation can complete is asked over the transactions stored now: later ingestion
  can change what a period holds.
- The database session runs in UTC.
- No report makes the renderers or the export storage raise on every attempt: whether a generation
  can complete is asked of the rest.

## Where the code does less than its documentation says

- **Duplicates.** The documentation calls at-least-once delivery harmless. The idempotency check
  takes no lock: `ProtocolWitnesses.DuplicatesAreReachable` reaches two COMPLETED runs of one
  period and version, and `ProtocolCompletion.RivalsCanDuplicateIff` says exactly when two
  invocations can both complete. What does hold is that duplicates imply overlap, so invocations
  that do not overlap leave at most one.
- **Fingerprint and load order.** The docstring says the fingerprint never depends on load order.
  `Fingerprint.LoadOrderFreeIff`: the hashed text is independent of it exactly when the lines of
  rows that share id and timestamp give the same text in either order. Agreeing on the hashed
  fields is enough, and on rows without stray delimiters it is needed
  (`Fingerprint.AgreeingTiesSuffice`). Ids are not unique, so this is not automatic:
  `Fingerprint.LoadOrderCanShow` has two loads of two storable rows with different texts.
- **Fingerprint and content.** The documentation calls the hash the fingerprint of the exact
  transaction set. The hashed text leaves out the category hint, which decides the classification:
  it fixes the report of the empty input and of no other
  (`ReportLaws.FingerprintFixesReportIff`, `ReportLaws.HintsAreNotFingerprinted`). On rows without
  stray delimiters text and categories together fix it, and where ids are distinct the categories
  are exactly what is missing (`ReportLaws.FingerprintAndCategoriesFixReport`).
- **Fingerprint and fields.** Nor does the text always determine the fields it is made of.
  `Readings.TextPinsIff`: it does exactly for the empty input and for single rows with no bar in
  currency or counterparty and no timestamp and amount between bars in the id. Two or more rows
  always share their text with one row whose counterparty holds line breaks
  (`Readings.NewlinesForgeRows`). Among inputs without stray delimiters it always does
  (`Fingerprint.TextDetermines`). These are statements about the domain function, whose texts have
  no length limit.
- **Very large totals.** A group total of 10^16 or more does not fit its column, and 2^31 rows do
  not fit theirs: over such rows a generation can never be COMPLETED, however often it is retried
  (`CommittedReports.CompletesIffFitting`, `ProtocolWitnesses.OversizedIsReachable`).
- **Exact sums.** `Decimal` sums of n column amounts are all exact if and only if n is at most 10^10
  (`Decimals.SumsAreExactIff`).
- **Rule-set text.** Without the `classify.` and `validate.` prefixes the text would not show
  where classification ends (`Rules.BoundaryCanBeLost`).

## Model

| member | source | states |
|---|---|---|
| ProtocolLaws.DuplicatesImplyOverlap | backend/app/application/scheduled_report_service.py:93-117 | over every interleaving, two completed service-account runs of one period and version come from two overlapping invocations, each of which did its check before the other's final commit |
| ProtocolLaws.AtMostOneWithoutOverlap | backend/app/application/scheduled_report_service.py:11-12 | if no two scheduled invocations of one period and version overlap, at most one such run is ever completed |
| ProtocolCompletion.RivalsCanDuplicateIff | backend/app/application/scheduled_report_service.py:95-116 | two scheduled invocations of one period and version can both complete exactly if each is able to: before its check while nothing is completed, past it from any phase up to the commit, always over rows that fit |
| ProtocolCompletion.BothFinishIff | backend/app/application/scheduled_report_service.py:95-116 | any two invocations can both complete exactly if each of them is able to |
| ProtocolCompletion.CanFinishIff | backend/app/application/report_service.py:59-157 | over the transactions stored now, some continuation completes an invocation exactly if its phase, what is completed already and what its rows sum to allow it |
| ProtocolWitnesses.DuplicatesAreReachable | backend/app/application/scheduled_report_service.py:95-116 | a reachable state with two completed runs of one period and version |
| ProtocolLaws.ReusesIff | backend/app/application/scheduled_report_service.py:95-108 | an invocation reuses a run exactly if a matching one was completed before its check; failed, running and other users' runs never count |
| ProtocolProgress.RetryGoesThrough | backend/app/application/scheduled_report_service.py:110-117 | with nothing completed yet, an invocation left alone, in which nothing raises and whose report fits its columns, ends completed whatever failed or stuck runs exist, and changes no other run |
| ProtocolProgress.FirstRunGoesThrough | backend/app/application/scheduled_report_service.py:52-117 | with no account and no uncommitted one, such an invocation creates the account, ends completed, and has the effect of the use case run by itself |
| ProtocolProgress.GenerationGoesThrough | backend/app/application/report_service.py:59-157 | an invocation just past its check, in which nothing raises and whose report fits, can complete in any state of the others with exactly the effect of the use case run by itself |
| ProtocolProgress.GenerationIsARun | backend/app/application/report_service.py:59-168 | whichever calls raise, the use case run by itself is a run of the protocol that ends in the same database: refused, stuck, failed or completed |
| ProtocolProgress.FailureIsHandled | backend/app/application/report_service.py:159-168 | an exception anywhere in the work can end in a FAILED row with its message, and nothing else changes |
| ProtocolProgress.CrashKeepsCommitted | backend/app/application/report_service.py:59-168 | an invocation can crash at any point; the committed database stays as it is and no index entry stays held |
| ProtocolSteps.ReachableInv | backend/app/application/report_service.py:45-168 | the protocol's invariant holds in every reachable state |
| ProtocolSteps.StepInv | backend/app/application/report_service.py:59-168 | each of the eighteen actions keeps the invariant and disturbs the other invocations only as `Evolves` allows |
| ProtocolInvariant.OthersKept | backend/app/application/report_service.py:59-168 | a step of one invocation leaves everything known about any other standing |
| ProtocolSteps.CommitReportKeeps | backend/app/application/report_service.py:106-148 | the final commit turns a running row without rows into a completed one showing the whole report, and keeps the invariant |
| ProtocolLaws.NoPartialReports | backend/app/application/report_service.py:66-148 | an audit trail exists exactly for completed runs, line items for no others, and a completed run shows exactly the report of the rows it loaded |
| ProtocolLaws.HandledFailureIsRecorded | backend/app/application/report_service.py:159-168 | a generation that raised and finished its handler leaves a FAILED run with error and finish time, empty hash, zero count, no violations, exports or rows |
| ProtocolLaws.StatusMoves | backend/app/infrastructure/db/repositories/report_repository.py:48-81 | in one step a run appears as RUNNING, or goes from RUNNING to COMPLETED or FAILED, or keeps its status; its key columns never change |
| ProtocolLaws.TerminalFrozen | backend/app/infrastructure/db/repositories/report_repository.py:48-81 | over any run of the protocol a COMPLETED or FAILED run keeps its row, line items and audit entries |
| ProtocolLaws.CompletedBy | backend/app/application/report_service.py:137-148 | a completed run belongs to one invocation, which ended by completing it and had checked before any rival completed |
| ProtocolLaws.OneServiceAccount | backend/app/application/scheduled_report_service.py:52-77 | at most one service account ever exists, and it is inactive |
| ProtocolLaws.SameIdentity | backend/app/api/deps.py:38-42 | all scheduled invocations act as the same user, and no API caller ever acts as it |
| ProtocolLaws.RefusedFindsWinner | backend/app/application/scheduled_report_service.py:71-75 | after a unique conflict the re-read always finds the account that won |
| ProtocolLaws.OnePendingAccount | backend/app/application/scheduled_report_service.py:64-70 | at most one uncommitted account exists at a time, and only while none is committed |
| CommittedReports.CommittedValuesAreExact | backend/app/application/report_service.py:94-106 | the stored total, minimum, maximum and count of every group are exact sums over the loaded rows, ids and counts trace them, and the stored average lies between minimum and maximum |
| CommittedReports.CompletesIffFitting | backend/app/infrastructure/db/models.py:122-158 | a built report can be completed exactly if fewer than 2^31 rows were loaded and every group's total is below 10^16 |
| ProtocolWitnesses.OversizedIsReachable | backend/app/infrastructure/db/models.py:157 | a reachable generation over two storable payments that can be built and never completed |
| CommittedReports.CompletedTotalsFit | backend/app/infrastructure/db/models.py:122-158 | every completed run loaded fewer than 2^31 rows and has all group totals below 10^16 |
| CommittedReports.CommittedMonthsAddUp | backend/app/application/scheduled_report_service.py:46-49 | the stored totals and counts of completed monthly runs sum, key by key, to those of one completed run over the whole span |
| ReportService.GenerateReport | backend/app/application/report_service.py:45-168 | the database left behind is that of `Outcome` for every combination of raising calls; success is returned exactly if nothing raised, every rule matched and every value and count fits its column |
| ReportService.SecondTransaction | backend/app/application/report_service.py:82-148 | all of the report is committed or nothing changes |
| ReportService.HandleFailure | backend/app/application/report_service.py:159-166 | the committed row becomes FAILED with the message, or stays RUNNING if the handler raises too |
| ScheduledReport.GetOrCreateServiceAccount | backend/app/application/scheduled_report_service.py:52-77 | whoever creates it first, the account returned is the one in the database, and addresses stay unique; it fails exactly if the commit of a new account raises |
| ScheduledReport.RunScheduledReport | backend/app/application/scheduled_report_service.py:80-117 | exactly when it succeeds and what database it leaves; it reuses the latest matching completed run and changes no run, or generates exactly if there is none; an unknown version touches nothing |
| ScheduledReport.OutcomeKeeps | backend/app/application/report_service.py:59-168 | a generation touches no run but its own and no users or transactions |
| ScheduledReport.Handle | backend/app/lambda_handlers/scheduled_report.py:91-126 | exactly when an event succeeds; the summary describes a completed run of exactly the resolved period and version by its stored counts, and a new run counts all loaded rows; an invalid event touches nothing |
| Store.ReportRepository.FindCompleted | backend/app/infrastructure/db/repositories/report_repository.py:83-104 | some latest completed run of exactly this period, version and user, or none if there is none |
| Store.ReportRepository.CreatePending | backend/app/infrastructure/db/repositories/report_repository.py:20-40 | adds one RUNNING row with empty outcome columns to what the session sees |
| Store.ReportRepository.MarkCompleted | backend/app/infrastructure/db/repositories/report_repository.py:48-74 | succeeds exactly if every value and count fits its column, and then only the outcome columns of this run change |
| Store.ReportRepository.MarkFailed | backend/app/infrastructure/db/repositories/report_repository.py:76-81 | status, message and finish time of this run change, nothing else |
| Store.UserRepository.GetByEmail | backend/app/infrastructure/db/repositories/user_repository.py:13-15 | a user with this address in lower case, or none exactly if that address is free |
| Store.UserRepository.Create | backend/app/infrastructure/db/repositories/user_repository.py:20-24 | adds the user under the lower-cased address, exactly if that address is free |
| Store.Session.Commit | backend/app/application/report_service.py:72 | makes everything the session saw the committed state at once, or, if it raises, nothing |
| Store.ReportWritesCommit | backend/app/application/report_service.py:106-148 | the three pending writes of a finished generation commit to the completed row with all its rows |
| Store.ListForPeriod | backend/app/infrastructure/db/repositories/transaction_repository.py:15-27 | the stored rows inside the inclusive UTC window, each once, in timestamp order |
| Scheduling.ReportsMonthBeforeInstant | backend/app/lambda_handlers/scheduled_report.py:70-75 | without an override the period is the whole month before the one the event's own instant falls in, in UTC, and the instant of handling counts only if the event carries no time; resolution fails only before February of year 1 or past year 9999 |
| Scheduling.HandlingTimeMatters | backend/app/lambda_handlers/scheduled_report.py:70-75 | an event with a time or an override resolves alike whenever it is handled, and one without a time as if stamped with the moment of handling |
| Scheduling.ResolvedPeriodsAreProper | backend/app/lambda_handlers/scheduled_report.py:62-75 | an override is refused exactly if one end is missing or the ends are reversed and is otherwise taken as given; every resolved period has a non-empty window |
| Scheduling.OffsetsDoNotMatter | backend/app/lambda_handlers/scheduled_report.py:73-75 | events of one instant stamped with different offsets resolve alike, whenever each is handled |
| Scheduling.ToUtcFailsIff | backend/app/lambda_handlers/scheduled_report.py:74-75 | conversion to UTC overflows exactly outside years 1 to 9999 |
| Calendar.PreviousMonthIsWholeMonth | backend/app/application/scheduled_report_service.py:46-49 | the period is the whole calendar month before, across leap years and year ends, and fails only in January of year 1 |
| Calendar.FiringsTileTime | backend/app/application/scheduled_report_service.py:46-49 | one firing in each of consecutive months, on any day, gives adjoining windows in which every instant of the span lies exactly once |
| Calendar.OrdinalKeepsOrder | backend/app/application/scheduled_report_service.py:48 | day numbers increase exactly with calendar order, so a date is determined by its number |
| Calendar.DayBeforeIsPredecessor | backend/app/application/scheduled_report_service.py:48 | subtracting a day is subtracting one from the day number; only the first date of all has no predecessor |
| Calendar.ToUtcKeepsInstant | backend/app/lambda_handlers/scheduled_report.py:74-75 | normalising to UTC keeps the instant and takes a naive reading as UTC |
| Calendar.IsoTextInjective | backend/app/domain/services/report_builder.py:37 | different timestamps have different ISO texts, fraction or not |
| Calendar.IsoTextReads | backend/app/domain/services/report_builder.py:37 | year, month, day, hours, minutes and seconds stand in decimal digits at their places, the fraction only if it is not zero, and the UTC offset at the end |
| ReportLaws.MonthlyReportsAddUp | backend/app/application/scheduled_report_service.py:46-49 | totals and counts of consecutive monthly reports over one store sum to those of one report over the span, whatever the order of tied rows |
| ReportLaws.LoadsTheDatedRows | backend/app/infrastructure/db/repositories/transaction_repository.py:15-27 | a load of a period holds exactly the stored rows dated from its first to its last day, each as often as stored, none before an earlier one |
| ReportLaws.TwoSpans | backend/app/infrastructure/db/repositories/transaction_repository.py:19-26 | a report over two adjoining windows shows the sum of the two reports |
| ReportLaws.ReportedIsExact | backend/app/domain/services/aggregation.py:48-61 | the total and count a report shows for a key are the exact sum and number of its transactions, zero if there are none |
| ReportLaws.ReportsAreReproducible | backend/app/domain/services/report_builder.py:44-118 | every input builds under v1; line items and fingerprint do not depend on the clock, and later readings only lose future-dated violations |
| ReportLaws.AuditTrailCounts | backend/app/domain/services/report_builder.py:58-106 | four audit events in stage order whose counts are those of the report |
| ReportLaws.FingerprintFixesReportIff | backend/app/domain/services/report_builder.py:22-118 | all inputs with the fingerprint text of a given one have its report, up to the order of source ids, exactly if that one is empty; also among storable inputs |
| ReportLaws.HintsAreNotFingerprinted | backend/app/domain/services/report_builder.py:36-39 | any non-empty input has a partner with one hint throughout, the same fingerprint text and a different report, storable if the input is |
| ReportLaws.FingerprintAndCategoriesFixReport | backend/app/domain/services/report_builder.py:22-118 | on clean inputs with equal fingerprint texts, equal categories give the same report up to the order of source ids; if one side's ids are distinct the reports are the same exactly if the categories are |
| ReportLaws.RepeatedIdsCanHideCategories | backend/app/domain/services/report_builder.py:22-118 | with a repeated id two inputs can have one text and one report although their categories differ in order |
| ReportLaws.IdKeepsKey | backend/app/domain/services/aggregation.py:48-73 | reports that agree up to the order of source ids list an id under the same category and currency |
| ReportLaws.LoadsReportAlike | backend/app/domain/services/report_builder.py:64-97 | two loads of the same rows give the same report up to the order of source ids |
| ReportBuilder.Build | backend/app/domain/services/report_builder.py:44-118 | the stages run in order produce the specified report, or fail exactly where the engine does |
| Fingerprint.LoadOrderFreeIff | backend/app/domain/services/report_builder.py:22-40 | the hashed text is the same for every load exactly if the lines of any two rows tied on id and timestamp give one text in either order |
| Fingerprint.AgreeingTiesSuffice | backend/app/domain/services/report_builder.py:22-40 | tied rows that agree on the hashed fields make the text independent of load order, and among rows without stray delimiters nothing else does |
| Fingerprint.AnyOrderIff | backend/app/domain/services/report_builder.py:25-28 | for lists in arbitrary order the same holds with the id alone |
| Fingerprint.LoadOrderCanShow | backend/app/domain/services/report_builder.py:35-41 | two storable rows with one id and timestamp and two loads of them with different texts |
| Fingerprint.NewlinesCanHideOrder | backend/app/domain/services/report_builder.py:37-40 | tied rows may differ and still give one text, if a counterparty holds a line break |
| Fingerprint.TextDetermines | backend/app/domain/services/report_builder.py:35-41 | without bars in ids and currencies and line breaks in text fields, the text determines the ordered hashed fields, and nothing else |
| Fingerprint.TextHasBar | backend/app/domain/services/report_builder.py:32-33 | a non-empty input never has the text of the empty one |
| Readings.TextLayout | backend/app/domain/services/report_builder.py:32-41 | the hashed text is a marker for the empty input and otherwise the rows field by field, in order of ids by code points and rows of one id as they came |
| Readings.TextPinsIff | backend/app/domain/services/report_builder.py:32-41 | the text determines the ordered hashed fields, among all storable inputs, exactly for the empty input and for a single row with no bar in currency or counterparty and no timestamp and amount between bars in the id |
| Readings.DelimitersAreAmbiguous | backend/app/domain/services/report_builder.py:37 | any row with a bar in the currency or the counterparty shares its text with a row whose currency is another |
| Readings.StampsAreAmbiguous | backend/app/domain/services/report_builder.py:37 | any row whose id holds a timestamp and an amount between bars shares its text with a storable row of a shorter id |
| Readings.PlainHasOneReading | backend/app/domain/services/report_builder.py:37 | without either, a row's line belongs to no other hashed fields |
| Fingerprint.IdDelimitersAreAmbiguous | backend/app/domain/services/report_builder.py:37 | for any transaction, a bar in the id gives it the text of another one |
| Readings.NewlinesForgeRows | backend/app/domain/services/report_builder.py:37-40 | any input of two or more rows shares its text with a single one of them that has line breaks added to its counterparty |
| Fingerprint.OrderedByKey | backend/app/domain/services/report_builder.py:35 | sorting a timestamp-ordered load stably by id orders it by id and timestamp |
| Sorting.StableSortIsStable | backend/app/domain/services/report_builder.py:35 | tied elements come out in the order they went in |
| Sorting.StableSortSorts | backend/app/domain/services/report_builder.py:35 | the result is ordered |
| Sorting.StableSortPermutes | backend/app/domain/services/report_builder.py:35 | the result has the same elements as often |
| Sorting.SortedUnique | backend/app/domain/services/report_builder.py:35 | a list has one sorted permutation if tied elements are equal |
| Sorting.SwapSurvives | backend/app/domain/services/report_builder.py:35 | swapping two tied neighbours of the input swaps them in the output, and nothing else |
| Strings.JoinInjective | backend/app/domain/services/report_builder.py:40 | a joined text determines its parts if none contains the separator |
| Strings.AmountTextInjective | backend/app/domain/services/report_builder.py:37 | different amounts have different texts |
| Strings.AmountTextReads | backend/app/domain/services/report_builder.py:37 | a minus sign if negative, whole units without leading zeros, a point, two digits of hundredths, standing for the amount |
| Strings.StringLeMeaning | backend/app/domain/services/aggregation.py:48 | the comparison texts are sorted by: a prefix, or smaller at the first difference |
| Strings.LowerMeaning | backend/app/domain/rules/classification_rules.py:31 | lower-casing keeps the length, moves A-Z 32 code points up and leaves every other ASCII character alone |
| Decimals.SumIsExact | backend/app/domain/services/aggregation.py:52 | repeated 28-digit addition of up to 10^10 column amounts is the exact sum, hence order-free |
| Decimals.SumsAreExactIff | backend/app/domain/services/aggregation.py:52 | for every n, all lists of n column amounts have exact sums if and only if n is at most 10^10 |
| Decimals.RoundIsCorrect | backend/app/domain/services/aggregation.py:53 | a rounded quotient has 28 digits and is within half a unit in the last place, ties to even |
| Decimals.RoundHalfEvenIsNearest | backend/app/domain/services/aggregation.py:53 | the computed integer is the nearest one, the even one of two, and the only such |
| Decimals.RoundRatio | backend/app/domain/services/aggregation.py:52-53 | rounding depends on the quotient, not on the fraction naming it |
| Decimals.AverageKeepsOrder | backend/app/domain/services/aggregation.py:53 | rounding an average never crosses a two-decimal number |
| Decimals.AverageIsBetween | backend/app/domain/services/aggregation.py:53-59 | minimum <= average <= maximum holds of the rounded values and of the stored ones |
| Decimals.StoredIsClose | backend/app/infrastructure/db/models.py:157 | storing moves a value by at most 0.00005 |
| Decimals.RoundHalfAwayIff | backend/app/infrastructure/db/models.py:157 | a column rounds to the nearest value, of two equally near to the one farther from zero, and that value is the only such |
| Decimals.StoredCents | backend/app/infrastructure/db/models.py:157 | a two-decimal value is stored exactly, and fits exactly if below 10^16 |
| Aggregation.AggregateLineItems | backend/app/domain/services/aggregation.py:30-75 | the nested loops yield the report specified group by group |
| Aggregation.SortedKeysAreTheKeys | backend/app/domain/services/aggregation.py:48 | group keys are strictly increasing and exactly those that occur |
| Aggregation.SameKeyIff | backend/app/domain/services/aggregation.py:40-48 | grouping by the category's text and the currency is grouping by category and currency |
| AggregationLaws.GroupsInOrder | backend/app/domain/services/aggregation.py:48 | rows follow each other by category text and then by currency, by code points, five to a group |
| AggregationLaws.CategoriesInOrder | backend/app/domain/models/transaction.py:16-30 | so reports list fee, high value, internal transfer, refund, retail, suspicious, unclassified, wire, in this order |
| Transactions.CategoryRoundTrip | backend/app/domain/models/transaction.py:16-30 | a category is found again under its text and under no other |
| AggregationLaws.ReportLayout | backend/app/domain/services/aggregation.py:48-73 | five rows per key in fixed metric order, counting and listing exactly the input's transactions of that key in input order |
| AggregationLaws.NothingLostNothingTwice | backend/app/domain/services/aggregation.py:48-73 | over the rows of any one metric the source ids are the input's ids and the counts its length |
| AggregationLaws.ValuesAreExact | backend/app/domain/services/aggregation.py:49-61 | a group's values are those of exact arithmetic, each rounded once |
| AggregationLaws.ReportFitsIff | backend/app/infrastructure/db/models.py:157-158 | a report's rows can be stored exactly if every group has a total below 10^16 and a count below 2^31 |
| AggregationLaws.ReportIgnoresOrder | backend/app/domain/services/aggregation.py:30-75 | permuting the input changes no number of the report |
| AggregationLaws.ReportsMerge | backend/app/domain/services/aggregation.py:48-75 | the report on two batches is the key-by-key merge of their reports |
| AggregationLaws.ReportIsItsEntries | backend/app/domain/services/aggregation.py:48-75 | a report's groups are exactly its keys with what it says of each |
| Rules.RunEngine | backend/app/domain/rules/engine.py:41-59 | the loop yields the specified classifications and violations, or the first unmatched transaction |
| Rules.ClassifyFirst | backend/app/domain/rules/engine.py:61-73 | the early-exit loop finds the first match |
| Rules.FirstMatchMeaning | backend/app/domain/rules/engine.py:61-65 | a rule is picked exactly if it matches and none before it does |
| Rules.Validate | backend/app/domain/rules/engine.py:75-81 | the loop collects the violations of all rules in order |
| Rules.RunViolationsMeaning | backend/app/domain/rules/engine.py:54 | a violation is reported exactly if some transaction, under its assigned category, breaches the rule it names |
| Rules.RunFailsIff | backend/app/domain/rules/engine.py:66-73 | the engine fails exactly if some transaction is matched by no rule, and otherwise classifies each in place |
| Rules.RunConcat | backend/app/domain/rules/engine.py:41-59 | running a concatenation appends the results, and the first failure wins |
| Rules.RunLater | backend/app/domain/rules/validation_rules.py:100-122 | later clock readings keep every classification and can only lose future-dated violations |
| Rules.V1IsTable | backend/app/domain/rules/registry.py:31-39 | under v1 first match always succeeds and equals one decision table over normalised hint and amount |
| Rules.V1NeverFails | backend/app/domain/rules/registry.py:38 | the engine never fails under v1 |
| RuleTables.RunUnderV1 | backend/app/domain/rules/engine.py:41-59 | under v1 the engine yields, transaction by transaction and in order, the category, rule id and violations that two tables of words, amounts and limits give |
| RuleTables.DecidedV1 | backend/app/domain/rules/classification_rules.py:18-103 | category and rule id of a transaction by its amount and the words its hint reads as |
| RuleTables.FaultsAreViolations | backend/app/domain/rules/validation_rules.py:23-122 | the violations of a transaction under v1, with id and severity, in order: currency not three capitals, non-positive non-refund, large amount with blank counterparty, future date |
| RuleTables.NormalizedReads | backend/app/domain/rules/classification_rules.py:28-31 | a hint matches a word exactly if it is that word in any case with spaces around it |
| RuleTables.CaseAndSpacesDoNotMatter | backend/app/domain/rules/classification_rules.py:28-31 | hints that differ in ASCII case and outer spaces only are classified alike, by the same rule |
| RuleTables.DefinitionOfV1 | backend/app/domain/rules/rule_set.py:33-36 | the text of v1's definition joins its eleven ids in the order of the registry |
| Rules.PositiveAmountUnderV1 | backend/app/domain/rules/validation_rules.py:49-71 | exactly when a non-positive amount is reported; never for high value, only at zero for wire and retail |
| Rules.ReorderingKeepsCategoriesIff | backend/app/domain/rules/registry.py:31-39 | a reordering of the v1 rules keeps all categories exactly if the last four stay in place |
| Rules.DefinitionTextDetermines | backend/app/domain/rules/rule_set.py:33-37 | with prefixed ids the text determines both id lists and where classification ends |
| Rules.RuleSetTextDetermines | backend/app/domain/rules/rule_set.py:25-37 | two rule sets of the catalogue have the same text exactly if they run the same rules in the same order |
| Rules.DefinitionTextIsConcatenation | backend/app/domain/rules/rule_set.py:33-36 | without prefixes it determines the concatenated list and nothing more |
| Rules.BoundaryCanBeLost | backend/app/domain/rules/rule_set.py:33-36 | two unprefixed rule sets with different boundaries and one text |
| Strings.StripMeaning | backend/app/domain/rules/classification_rules.py:31 | stripping removes the spaces at both ends and nothing else |
| Ingestion.IngestBatch | backend/app/application/ingestion_service.py:114-216 | refusals come in the source's order and leave no batch; otherwise the batch carries the counts of the split and is completed exactly if something was accepted |
| Ingestion.SplitRows | backend/app/application/ingestion_service.py:155-189 | one pass splits the rows as specified |
| Ingestion.SplitKeepsOrder | backend/app/application/ingestion_service.py:159-189 | accepted records are what the schema makes of the mappings it accepts, in row order, rejected indices strictly increase, and both sides add up to the input |
| Ingestion.RejectionsAreTheInvalidRows | backend/app/application/ingestion_service.py:160-175 | a row is rejected exactly if it is no mapping, with the fixed message, or the schema refuses it, with the schema's reason and errors; summaries and details agree position by position and keep the raw row |
| Ingestion.Batch.Finalize | backend/app/infrastructure/db/repositories/batch_repository.py:35-50 | all counts are set and the status is COMPLETED exactly if a row was accepted, else FAILED |
| Ingestion.StoredIsStorable | backend/app/application/ingestion_service.py:177-189 | what is stored obeys its columns, carries the row's texts and hint, the amount rounded to the nearest cent, and the row's instant, naive timestamps as UTC |
| Ingestion.StoredIff | backend/app/infrastructure/db/models.py:94-99 | a record is stored exactly if its instant converts to UTC, its rounded amount is below 10^16 in magnitude and no text holds NUL |
| Ingestion.CentsStoredExactly | backend/app/infrastructure/db/models.py:96 | two-decimal amounts are stored unchanged |
| Ingestion.SafeNameIsBare | backend/app/application/ingestion_service.py:135 | the stored name has no separator and is not empty |
| Ingestion.SafeNameReads | backend/app/application/ingestion_service.py:135 | the stored name is what follows the last separator of either kind, or `upload` if nothing does |
| Ingestion.AfterSeparatorIsSuffix | backend/app/application/ingestion_service.py:135 | what is kept is the longest end of the name without a separator |
| UploadService.UploadBatch | backend/app/api/v1/batches.py:38-99 | a refused upload changes neither store and gets the source's status, also for files the reader breaks on and texts PostgreSQL refuses; an accepted one commits batch and records whole and adds only its own rejections to the trail |
| UploadService.UploadAnswers | backend/app/api/v1/batches.py:44-69 | the status by cause in the source's order: no name, content type, empty, over 25 MiB, unreadable, over 200000 rows, and what the database refuses |
| UploadService.AfterDotReads | backend/app/api/v1/batches.py:83 | the format is what follows the last point of the name |
| UploadLaws.CommittedBatchesAddUp | backend/app/infrastructure/db/repositories/batch_repository.py:35-50 | in every reachable state row count = accepted + rejected = stored records + stored rejections, and no batch is left processing |
| UploadLaws.CommittedRecordsAreStorable | backend/app/application/ingestion_service.py:191 | all committed records obey what reports assume of stored transactions |
| UploadLaws.TrailMatchesBatches | backend/app/api/v1/batches.py:71-87 | every trail document names a committed batch and repeats one of its rejected rows by index, reason and field errors, with the sanitized row as payload, which BSON can hold |
| UploadLaws.OneDocPerRow | backend/app/infrastructure/mongo/rejection_store.py:101-124 | at most one document per batch and row |
| UploadLaws.TrailCountBounded | backend/app/infrastructure/mongo/rejection_store.py:141-145 | the trail never counts more rejections than the batch has |
| UploadProgress.UploadIsARun | backend/app/api/v1/batches.py:56-87 | in any state of the others an accepted upload can take the steps that leave both stores exactly as the endpoint run by itself does, whichever documents the server stores |
| UploadProgress.StopLosesNothing | backend/app/api/v1/batches.py:64-69 | an upload can stop at any point, and then neither store changes |
| RejectionTrail.MongoRejectionStore.Record | backend/app/infrastructure/mongo/rejection_store.py:101-124 | all documents are stored, or the insert fails having stored any of them |
| RejectionTrail.ChosenMembers | backend/app/infrastructure/mongo/rejection_store.py:120-124 | what an insert that failed has stored: exactly the documents at the positions that went through |
| RejectionTrail.MongoRejectionStore.CountForBatch | backend/app/infrastructure/mongo/rejection_store.py:141-145 | counts exactly the batch's documents |
| RejectionTrail.RecordBestEffort | backend/app/application/rejection_store.py:84-110 | never fails, whatever the store does, and reports zero for a failed or missing one |
| BsonContent.SanitizeKeepsContent | backend/app/infrastructure/mongo/rejection_store.py:46-74 | a sanitized value reads the same: decimals, bytes, foreign objects and wide integers as their text, containers item by item, mappings by the texts of their keys |
| BsonContent.IntTextReads | backend/app/infrastructure/mongo/rejection_store.py:62-63 | an integer's text is a minus sign if negative and its decimal digits without leading zeros |
| BsonContent.EscapeNulReads | backend/app/infrastructure/mongo/rejection_store.py:68-69 | each NUL of a key becomes a backslash and a zero, and nothing else changes |
| Bson.SanitizeIsSafe | backend/app/infrastructure/mongo/rejection_store.py:46-74 | the result of any finite nested value can be stored as BSON |
| Bson.SanitizeFixesExactlySafe | backend/app/infrastructure/mongo/rejection_store.py:46-74 | a value is left unchanged exactly if it is already safe |
| Bson.SanitizeIdempotent | backend/app/infrastructure/mongo/rejection_store.py:46-74 | sanitising twice is sanitising once |
| Bson.SanitizeItems | backend/app/infrastructure/mongo/rejection_store.py:70-71 | sequences keep their length, item by item |
| Bson.MappingSize | backend/app/infrastructure/mongo/rejection_store.py:68-69 | a mapping never grows, and shrinks exactly if two keys become one text |
| Bson.MappingKeepsLast | backend/app/infrastructure/mongo/rejection_store.py:68-69 | the result maps exactly the texts of the keys, each to the last value under it |
| Bson.NoneCollides | backend/app/infrastructure/mongo/rejection_store.py:68-69 | the keys `None` and "None" become one entry holding the later value |
| Bson.WideIntegersStayDistinct | backend/app/infrastructure/mongo/rejection_store.py:62-63 | integers beyond 64 bits become texts that still tell them apart |

## Left out

- Message wording: violation and audit messages are not modelled, only rule, severity and counts.
- Rendering of JSON, CSV and PDF exports and the S3 client: steps that may raise and whose paths and keys are inputs.
- Parsing of CSV and JSON and the field checks of the row schema: a total function from raw rows to verdicts.
- SHA-256, UUIDs, passwords, tokens, log output, migrations and deployment.
- UTF-8 decoding of `bytes` and the exact text of foreign objects: such values carry the text Python makes of them.
- Lower-casing beyond what comparison with an ASCII word can see.
- Python's recursion limit on deeply nested upload values.
- Lone surrogates, which the fingerprint's UTF-8 encoding would refuse.
- Timestamps that leave years 1 to 9999 when converted to UTC: the model refuses them, PostgreSQL would store them and no report would load them.
- Decimals.Round: a carry to 10^28 stays in the coefficient; as a number it is what the context yields.
- Several clock readings within the checks of one transaction: the model takes one reading per transaction.
- The `metadata` field of transactions, which no rule and no report reads.
- Readings.TextPinsIff: the other input with the same text may have fields longer than the row schema accepts, since text lengths are not modelled.
- Sizes of texts and JSON documents: the row schema's limits of 255, 10 and 50 characters and its stripping of outer spaces, the length of export paths or PostgreSQL's limit of one gigabyte for a value.
- Recording of MongoDB inserts as separate steps stands for the driver's batches; `_id` values and the index definitions are not modelled.
- Listing endpoints, pagination, the frontend, SQLite behaviour.
