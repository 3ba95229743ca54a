# Listing history, proved

A crawler visits the listings of an apartment complex again and again. Every run of a source observes a set of listings.
The backend matches each listing to a permanent group, keeps a visibility row per source and group (active, missing,
removed), compares every listing with its last completed snapshot and writes a log of change events. The same history is
then told in four other ways: the event log is replayed to show a past run, a migration rebuilt the rows from runs and
snapshots, the frontend compares two past runs, and the log can be folded back into facts. This project models that engine
and proves that its tellings agree on every sequence of runs; around it, it models what feeds the engine (the collection
loop, the HTML tree, the aggregate of broker articles, amounts of money) and what drives it (runs, the queue, schedules,
notifications).

`dafny verify dfyconfig.toml` checks everything.

## How it is organised

The central idea is that the database of `Persistence` holds, for every source and group, exactly a fold over the source's
history. `ListingTrack` defines the fold (`After`, one `AfterRun` per successful run) and proves what it means; `PersistKeeps`
proves that the stored tables are that fold after every transaction; `System` proves, for every interleaving of requests,
workers and the queue, exactly when it still holds. Whatever the query layer, the migration or the frontend compute is then compared with the fold.

| files | content |
|---|---|
| Text, Comparator, Attributes, ListingIdentity | whitespace; field comparison and the visibility machine; what a comparison reports, said of the attributes; matching |
| Tables, ListingTrack, ReplayedFacts | rows and payloads; the life of one group as a fold, its closed form, both replays; what the log says of a listing after any runs |
| Persistence, PersistenceShape | the result transaction as a function, and what a successful one adds to each table |
| SourceHistory, PersistenceRefines, HistoryStep, TrackStep, PersistKeeps | the history read off the tables, the invariant, and its preservation |
| RunLifecycle, Growth, System, RunRecords, Guarantees, Overwritten, Repersist | run writes, what a run's record says, what is never taken back, the whole backend as a state machine, what holds of every run of it, and the one write that can break it |
| Database | the tables as mutable state, every write as a method proved to compute its function |
| ChangeEvents, Matching, PersistExact | the transaction said of the tables before it and the payload: what it writes about every group, where each listing goes, and when it succeeds |
| EventLog, Query, PastSnapshots, ListingPages, Comparison, Backfill | the readers: past runs, their last snapshots and labels, pages, the two-run comparison, the migration |
| Readers | what the readers tell of every database the backend reaches |
| Collector, CollectorLoops, CollectorTurns, CollectorComplete, CollectorEnds, CollectorStill | the browser loop against a page that may do anything, against a fair one, and what it brings back from one that stands still |
| HtmlTree, HtmlPaths, HtmlParser | the tree builder on values, where its nodes hang, and with nodes changed in place |
| Aggregator, Summaries | the aggregate of broker articles, and what each of its parts says of them |
| Money, MoneyPrints, MoneyForms, MoneyText, MoneyRoundTrip | printing and parsing won: what is printed, what every written form is read as, alone and inside other text, and both together |
| Schedules, ScheduledRuns | schedules, and their runner's cycle as steps of the backend |
| LocalDispatcher, LocalBackend | the in-process queue, and the backend run with it |
| Notifications, Cursor | the notification pages and their cursors |

Where the source changes state step by step there is a method or class with the same loops and fields (`Database.Store`,
`Schedules.ScheduleTable`, `HtmlParser.TreeParser`, `LocalDispatcher.Dispatcher`, the loops of `CollectorLoops`,
`Query`, `ListingPages`, `Comparison`, `Backfill`, `Comparator`), proved to compute a function; the theorems are about
those functions.

## What turned out not to hold as documented

- A run's terminal status is meant to be final. When the creator's enqueue raises, it writes `failed` without looking at
  the current status (backend/app/services/analysis_service.py:138-145). Along every run of the backend a terminal status
  changes exactly when that write hits a run that is terminal and not failed (`Guarantees.TerminalIsFinal`).
  - A run cancelled in between ends as failed (`Overwritten.CancelledRunOverwritten`). Nothing else is lost: the invariant
    of the tables survives every such write onto a run without results (`System.StepKeepsExact`).
  - A run that the queue had after all, and whose results a worker stored in between, ends as failed too
    (`Overwritten.StoredRunOverwritten`). Its results stay in the tables, but its observation is gone from the history that
    rows and events tell (`Overwritten.OverwrittenResult`). After any run of the backend the invariant holds exactly when
    no failure write hit a run with stored results (`System.AlwaysExact`, `System.SparesResults`); of the
    failure writes the theorems about histories ask no more than that, and those about single active runs, claims, stored
    results and final bindings ask nothing.
- The event log need not reproduce the latest completed snapshot. Over every history the log says of a field what the last
  run that reported it showed (`ReplayedFacts.ReplayedField`), so it gives a listing back exactly when every field was last
  reported as it is there (`ReplayedFacts.LogExact`, `Guarantees.StoredFactsExact`). It fails in two ways:
  - Broker details switched off for one run. The detail fields of that run are compared with neither neighbour, so a change
    across it is never written: of three completed runs with details on, off and on, with a management fee of 1, none and
    2, the log ends with a fee of 1 (`ReplayedFacts.DetailSwitchMisleads`). The log is right exactly when the detail fields
    are as they were before the switch (`ReplayedFacts.DetailSwitchExact`).
  - A partial run. It is compared with the last completed run and is never the base of the next comparison, so what it
    reported is not taken back (`ReplayedFacts.PartialRunMisleads`, a log that ends with a price the listing no longer has).
    A full collection never returns a partial payload (`CollectorComplete.FullCollection`), and the crawl task collects in
    full scope only (backend/app/tasks/crawl_tasks.py:178-200), so this concerns payloads of other scopes, which
    `persist` accepts.
- `parse_money` does not invert `format_korean_won` on amounts with both ten-thousands and single won
  (`MoneyRoundTrip.WonIsLost`: 10001 is read as 10000), nor on negative amounts with several parts
  (`MoneyRoundTrip.SignIsLost`), nor beyond 28 digits; `MoneyRoundTrip.KoreanRoundTrip` is the exact condition for every
  amount.

## Assumptions

- The results of one source are captured in the order they are stored (`SourceHistory.CapturedAfter`), and every listing
  of a payload carries the payload's capture time.
- Snapshots of one group stored for different sources never share a capture time: the query for a group's newest snapshot
  leaves such ties open, `Persistence.LatestAny` takes the first.
- Ids of runs and groups are positions, so ids follow creation; hex digests and UUIDs of one length are ordered like the
  numbers they denote. The hash is an arbitrary function of the hashed parts. Only the results that
  say what equal keys mean (`ListingIdentity.KeysMeaning`, `ListingIdentity.ChooseMeaning`, `Matching`) ask it to be injective.
- Areas are whole hundredths of a square metre. Text is taken after Unicode compatibility normalisation.
- A sorted list of distinct strings is its set, a sorted tuple of tags its multiset; library printers are injective.
- Each committed transaction, and `cancel` as one check and set, is one atomic step.

## Model

| member | source | states |
|---|---|---|
| Comparator.CompareListings | backend/app/domain/comparator.py:85-108 | the comparison loop, skipping detail fields unless asked, computes the diff of the two observations over the field table |
| Comparator.DiffPatch | backend/app/domain/comparator.py:70-108 | the after half of a diff turns the old normalised observation into the new one on every compared field and touches no other; with detail fields it gives the new observation back whole |
| Comparator.DiffUnpatch | backend/app/domain/comparator.py:85-108 | the before half undoes it on every compared field |
| Comparator.DiffFields | backend/app/domain/comparator.py:94-107 | the changed fields are the keys of both halves, and there are none exactly when no compared field differs after normalisation |
| Comparator.DiffOrder | backend/app/domain/comparator.py:41-57 | changed fields come in table order, each once |
| Attributes.FieldReported | backend/app/domain/comparator.py:70-82 | the value compared and reported for a field is that of its attribute: the number, the words with single spaces, or the set of non-blank texts so written |
| Attributes.DiffExact | backend/app/domain/comparator.py:85-108 | a field is reported changed exactly when its attribute differs (numbers by value, texts by their words, tags and articles as sets of non-blank texts, detail fields only when both runs collected details), with the old and new attribute's values |
| Text.WordsOfClean | backend/app/domain/comparator.py:71-73 | cleaning white space keeps exactly the words and is idempotent |
| ListingIdentity.ChooseMeaning | backend/app/domain/listing_identity.py:67-90 | for an injective digest and candidates of any origin, said of attributes: the match shares most articles, with the least key on ties; else was founded by an offer of the same description, price and articles; else is the only candidate with the same words of complex, trade type, building, floor and direction and the same area; else none |
| ListingIdentity.KeysMeaning | backend/app/domain/listing_identity.py:35-64 | for an injective digest the auxiliary keys are equal exactly when complex, trade type, building, floor and direction have the same words and the areas are equal, and the identity keys exactly when price and article set agree as well |
| ListingIdentity.ChooseOrderIrrelevant | backend/app/domain/listing_identity.py:67-90 | with distinct keys every order of the candidates gives the same match |
| ListingTrack.ClosedForm | backend/app/domain/comparator.py:111-128 | over any sequence of completed and partial runs: removed iff at least two completed runs since the last observation, missing iff exactly one, else active, with the exact counter and times |
| ListingTrack.NeverShown | backend/app/services/persistence_service.py:640-676 | a row exists exactly for the groups the source has shown |
| ListingTrack.RowShapes | backend/app/services/persistence_service.py:655-691 | only (active, 0, no removal), (missing, 1, no removal) and (removed, 2, removal time) are ever stored |
| ListingTrack.FirstSeen | backend/app/services/persistence_service.py:640-676 | the row remembers the capture time of the first run that showed the group |
| ListingTrack.ReplayGivesRow | backend/app/services/query_service.py:552-559 | replaying a group's events from nothing gives the absence its row stands for, after every run sequence |
| ListingTrack.ReplayGivesFacts | backend/app/services/persistence_service.py:704-783 | over completed runs, observed payloads and diffs alone reproduce the latest snapshot: on non-detail fields always, on all fields if every run collected details |
| ReplayedFacts.AwayIsInactive | backend/app/services/persistence_service.py:655-691 | a group counts as new or away, judged by the runs alone, exactly when it has no row or an inactive one |
| ReplayedFacts.BaseIsLast | backend/app/services/persistence_service.py:694-716 | the base of the next comparison is the last completed run that shows the group |
| ReplayedFacts.ReplayedField | backend/app/services/persistence_service.py:694-783 | over every sequence of completed and partial runs, with and without details: the log says of a field what the last run that reported it showed |
| ReplayedFacts.LogExact | backend/app/services/persistence_service.py:694-783 | over every such sequence the log gives a listing back exactly when every field was last reported as it is there; in particular the latest completed snapshot |
| ReplayedFacts.DetailSwitchExact | backend/app/services/persistence_service.py:694-716 | three completed runs, the middle one without details: the log gives the last snapshot back exactly when its detail fields are those of the first |
| ReplayedFacts.DetailSwitchMisleads | backend/app/services/persistence_service.py:694-716 | an input of that shape: all runs completed, the log ends with a fee of 1, the last snapshot has a fee of 2 |
| ReplayedFacts.PartialRunExact | backend/app/services/persistence_service.py:694-716 | LogExact at one shape: a partial run between two equal completed ones leaves the log right exactly when it had shown no difference |
| ReplayedFacts.PartialRunMisleads | backend/app/services/persistence_service.py:694-716 | an input of that shape, with a payload no full collection returns: three observations whose log ends with a price of 200 while the listing costs 100 |
| PersistenceShape.StoreBrokersMeaning | backend/app/services/persistence_service.py:393-450 | storing a listing's articles succeeds exactly when none is bound to another group, already sighted in this run or listed twice, and then binds them all |
| PersistenceShape.StoreListingMeaning | backend/app/services/persistence_service.py:615-783 | when an iteration of the listing loop succeeds, and every table after it |
| SourceHistory.TargetOverlaps | backend/app/services/persistence_service.py:616-618 | a listing with an article of some group of the complex is matched to a group it shares an article with |
| SourceHistory.FreshKey | backend/app/services/persistence_service.py:619-635 | the identity key built for an unmatched listing is held by no existing group |
| PersistenceRefines.Land | backend/app/services/persistence_service.py:510-837 | a successful transaction as a relation between the tables before and after it: groups, articles, snapshots, rows, events, run and source |
| HistoryStep.LoadNew | backend/app/services/persistence_service.py:153-178 | a stored snapshot loads as the comparable it was stored from |
| TrackStep.StoredMoves | backend/app/services/persistence_service.py:614-837 | row, last completed snapshot and events of every group move by one step of the fold under the run's source and not at all under other sources |
| PersistKeeps.PersistKeepsInv | backend/app/services/persistence_service.py:510-837 | a successful transaction keeps the invariant of all tables, appends one observation to its source's history and leaves every other history alone |
| PersistExact.PersistsExactly | backend/app/services/persistence_service.py:510-837 | a result of a run that has not ended is stored exactly when its source is known and of this complex, no two listings would go to one group, and no article is listed twice or bound to another group |
| ChangeEvents.EventsTold | backend/app/services/persistence_service.py:640-830 | what a successful transaction writes, said of the tables before it and the payload: a snapshot per listing, and per group exactly the event called for, with its payload: new, restored (with what changed since the last completed snapshot), changed with exactly the attributes that differ, missing, removed, or none |
| Matching.TargetTold | backend/app/services/persistence_service.py:254-352 | the group an incoming listing is matched to follows the rules read off the tables: articles bound in the source, the offer that founded the group, the columns of the group's last snapshot |
| Matching.MatchedTold | backend/app/services/persistence_service.py:614-640 | after any run of the backend that spares stored results, each listing is stored in the group those rules give it on the tables before, or else in a new group |
| Database.Store.ExistingRecords | backend/app/services/persistence_service.py:254-352 | the loop over the groups of the complex computes the candidates |
| Database.Store.StoreBrokersOf | backend/app/services/persistence_service.py:393-450 | the article loop changes bindings and sightings as specified, or names the conflict |
| Database.Store.StoreOne | backend/app/services/persistence_service.py:615-783 | one iteration of the listing loop on the tables |
| Database.Store.StoreAbsencesOf | backend/app/services/persistence_service.py:785-830 | the absence loop moves exactly the rows of the source's unmatched groups and appends their events in group order |
| Database.Store.StoreAll | backend/app/services/persistence_service.py:614-783 | the listing loop stops at the first failing listing |
| Database.Store.Persist | backend/app/services/persistence_service.py:510-845 | on success the tables are those of the transaction and the counts are right; on failure, or for a terminal run, the tables are untouched |
| Database.Store.CreateRun | backend/app/services/analysis_service.py:100-136 | an active run of the source is returned, or conflicts in its options; otherwise one queued run is added |
| Database.Store.ClaimRun | backend/app/tasks/crawl_tasks.py:58-116 | only a queued run is claimed, and the caller is told whether it won |
| Database.Store.CancelRun | backend/app/services/analysis_service.py:240-248 | only a queued run is cancelled |
| RunLifecycle.ActiveRunMeaning | backend/app/services/analysis_service.py:75-83 | the active run is found exactly when the source has one |
| RunLifecycle.CreateTold | backend/app/services/analysis_service.py:100-136 | a request adds one queued run with the options asked for exactly when the source is known and has no queued or running run; otherwise nothing changes, and the answer is that run if its options agree, else a conflict |
| RunLifecycle.RewritesMove | backend/app/tasks/crawl_tasks.py:58-126 | claiming, advancing, failing, cancelling and the creator's failure write make no run active or queued again, give no run results and no source a second active run, and move a terminal status to failed at most |
| RunLifecycle.RewritesQuiet | backend/app/services/analysis_service.py:138-145 | claiming, advancing, failing and cancelling leave results alone, and the creator's failure write does so exactly when the run has none |
| RunLifecycle.QuietKeeps | backend/app/services/analysis_service.py:100-146 | every write that touches no result keeps the invariant and every history |
| RunRecords.ReachedRecords | backend/app/models/entities.py:88-94 | in every state the backend reaches a run has an end time exactly when its status is terminal, a queued run has no progress and one with results has all of it |
| RunRecords.RecordsAlways | backend/app/tasks/crawl_tasks.py:58-200 | along every run of the backend no run disappears or changes its source or options |
| Growth.PersistedGrows | backend/app/services/persistence_service.py:510-837 | whatever the tables held: a successful transaction finishes its run, keeps bindings and complexes, only appends groups, snapshots and events, and the new snapshots and events are its run's |
| System.LifecycleKeeps | backend/app/tasks/crawl_tasks.py:58-116 | every step, whatever it finds, leaves each source at most one active run, claims and stores no run twice, stores only claimed runs, and keeps snapshots and events to stored runs |
| System.StepKeepsExact | backend/app/tasks/crawl_tasks.py:142-200 | a step of requests, queue, workers or the result transaction keeps the invariant of tables and logs exactly when it is not a failure write onto a run with stored results |
| System.AlwaysExact | backend/app/tasks/crawl_tasks.py:142-200 | after any run of the backend the invariant holds exactly when no failure write along it hit a run with stored results |
| Guarantees.StoredVisibility | backend/app/services/persistence_service.py:655-691 | in every database meeting the invariant the stored row of a group is the closed form over the source's history |
| Guarantees.StoredFacts | backend/app/services/persistence_service.py:704-783 | in every such database, while a source has only completed runs, its stored events alone give back the last snapshot of every group |
| Guarantees.StoredFactsExact | backend/app/services/persistence_service.py:694-783 | in every such database, whatever runs the source had, its stored events give a listing back exactly when every field was last reported as it is there |
| Guarantees.OneEventPerRunAndGroup | backend/app/services/persistence_service.py:755-830 | in every such database a run has written at most one event per group |
| Guarantees.HistoryGuarantees | backend/app/services/persistence_service.py:510-837 | along every run of the backend whose failure writes spare stored results: the stored row is the closed form over the history, the stored events give a listing back exactly when every field was last reported as it is there, and no run wrote two events for a group |
| Guarantees.RunGuarantees | backend/app/models/entities.py:88-94 | along every run of the backend, with no exception: one queued or running run per source, each run claimed at most once, results stored at most once and by claimed runs only, snapshots and events only of stored runs; and a result status exactly for the stored runs that no failure write hit |
| Guarantees.StoredStatusExact | backend/app/services/analysis_service.py:138-145 | a run that stored results still is completed or partial exactly when no failure write has hit it since |
| Guarantees.StatusMoves | backend/app/services/persistence_service.py:848-866 | a status moves only from queued to running or cancelled and from running to completed, partial, failed or blocked, but for the failure write |
| Guarantees.TerminalStatusExact | backend/app/services/analysis_service.py:138-145 | a step keeps all terminal statuses exactly when it is not a creator's failure write onto a run already terminal otherwise |
| Guarantees.TerminalIsFinal | backend/app/services/persistence_service.py:848-866 | along every run of the backend a terminal status changes exactly when a failure write hits the run while it is terminal and not failed, and then to failed for good |
| Guarantees.BindingsAreFinal | backend/app/services/persistence_service.py:401-430 | along every run of the backend, whatever the tables held, the group of an article and the complex of a source never change and groups, snapshots and events are only appended |
| Overwritten.CancelledRunOverwritten | backend/app/services/analysis_service.py:138-145 | from the initial state, a run cancelled while its creator's enqueue is raising ends as failed, and the invariant still holds |
| Overwritten.OverwrittenResult | backend/app/services/analysis_service.py:138-145 | a failure write onto a run with results takes its observation out of the history, while rows and events still tell the whole history |
| Overwritten.StoredRunOverwritten | backend/app/services/analysis_service.py:138-145 | a run whose enqueue raised, which the queue had and whose results were stored, can end as failed, and then a row has no history left |
| Repersist.RepeatedPayload | backend/app/services/persistence_service.py:596-783 | storing the same listings again, after any run of the backend that stores no other result of the source and spares stored results, succeeds, puts each listing into the group it had, creates no group, binds no article and writes no new, changed or restored event |
| Guarantees.MatchingIsConsistent | backend/app/services/persistence_service.py:393-430 | a successful transaction gives distinct listings distinct groups, binds every article to its listing's group, shares no article between listings, had no listing with articles of two groups, rebinds nothing and keeps keys unique |
| EventLog.EventsRise | backend/app/services/persistence_service.py:755-830 | a group's events have strictly rising times |
| EventLog.PrefixEvents | backend/app/services/query_service.py:545-549 | the log through a run is the part of the full log that the runs up to it wrote |
| Query.SourceRunIdsThrough | backend/app/services/query_service.py:375-395 | the loop yields the source's result runs up to the selected one, or the selected run alone if it has no result |
| Query.AbsenceStates | backend/app/services/query_service.py:552-577 | the replay loop with its final removal gives every group the replay of its own events, and nothing to the shown groups |
| Query.QueryOfGroup | backend/app/services/query_service.py:534-551 | however the query breaks ties, each group's events come in the order they were written |
| Query.AbsenceAsOfRun | backend/app/services/query_service.py:530-592 | the absence computed for any past run is that of the history through it, and the final removal of shown groups is redundant |
| PersistKeeps.LabelsKept | backend/app/services/persistence_service.py:710-783 | after every successful transaction each snapshot carries the kind of its run's event about its group, or none |
| PastSnapshots.LatestWithinIsLast | backend/app/services/query_service.py:455-528 | the newest snapshot of a group within the runs through a run is that of the last run that shows the group |
| PastSnapshots.ShownKind | backend/app/services/query_service.py:619-639 | the event of a shown group says new exactly when no earlier run shows it, and changed exactly when it was not away and a field differs from the last completed run showing it |
| PastSnapshots.KindOfRun | backend/app/services/query_service.py:594-602 | the kind the event table gives a past run's group is that of the run's step in the history |
| ListingPages.Items | backend/app/services/query_service.py:675-686 | exactly the shown groups, each once, with the visibility its row had, the columns and source count of the run's snapshot, and the labels new and changed exactly where the history has them |
| ListingPages.Absents | backend/app/services/query_service.py:687-706 | exactly the absent groups, each once, with its visibility and removal time and the columns and source count of the snapshot of the last run that shows it |
| ListingPages.Listings | backend/app/services/query_service.py:663-727 | the page lists exactly the shown and the absent groups, each once, with the right visibility, removal time, label, columns and source count |
| ListingPages.CompletedPageIsComplete | backend/app/services/query_service.py:663-727 | at a completed run items and absent items are exactly the groups the source has ever shown through it |
| Comparison.ChangedFieldsMeaning | frontend/src/utils/listingHistory.ts:75-108 | the changed fields of two entries are exactly those that look different: numbers and areas by value, texts by their words, an absent one as a dash |
| Comparison.SortAfter | frontend/src/utils/listingHistory.ts:149-173 | the first loop sends every later entry to its bucket, in order |
| Comparison.CompareListingSnapshots | frontend/src/utils/listingHistory.ts:135-185 | the six lists are the buckets of the later entries and the earlier entries whose group is gone |
| Comparison.EveryGroupOnce | frontend/src/utils/listingHistory.ts:135-185 | for any two pages that list their groups once, the earlier one partial or not, every group of either is in exactly one of the six lists, once, and which one |
| Comparison.CompareCompletedRuns | frontend/src/utils/listingHistory.ts:135-185 | for two completed runs nothing is unobserved and every group ever shown is in exactly one list, once, by its visibility at the two runs |
| Comparison.ChangedExactly | frontend/src/utils/listingHistory.ts:135-185 | of two completed runs, a group active at both is listed as changed exactly when the two runs' snapshots of it differ in a displayed field, and as unchanged otherwise |
| Readers.CompareRuns | frontend/src/utils/listingHistory.ts:135-185 | in every database the backend reaches with its stored results spared, reading two completed runs' pages and comparing them puts every group into the list its visibility at the two runs calls for, and tells changed from unchanged by the two snapshots |
| Readers.PastAbsences | backend/app/services/query_service.py:530-592 | in every such database the absence computed for a past run is that of the history through it, and none for a group the run shows |
| Readers.MigrationTold | backend/alembic/versions/0008_source_owner_contract_and_listing_state.py:89-147 | in every such database the migration gives each live row back: same visibility, live count the minimum of two and its count, removal times in both or neither and the live one never later |
| Backfill.BackfillStates | backend/alembic/versions/0008_source_owner_contract_and_listing_state.py:89-147 | the nested loops compute, per source and group, a fold over that source's run rows |
| Backfill.LifeOfSource | backend/alembic/versions/0008_source_owner_contract_and_listing_state.py:105-147 | sources do not affect one another |
| Backfill.BackfillRefines | backend/alembic/versions/0008_source_owner_contract_and_listing_state.py:101-147 | on every database meeting the invariant the migration gives each live row back: same visibility, live count the minimum of two and its count, removal times in both or neither and the live one never later |
| Backfill.BackfillExact | backend/alembic/versions/0008_source_owner_contract_and_listing_state.py:89-147 | on every database meeting the invariant, the migrated row of a group in closed form: first seen at the first run that shows it, last seen at the last, counting the completed runs since, removed exactly when they are two or more, at the last of them |
| CollectorLoops.ScanListingGroups | backend/app/crawler/browser.py:673-767 | the nested scan loops, with their early returns and passes, compute the scan that CollectorComplete and CollectorEnds reason about |
| CollectorLoops.CollectExpandedRows | backend/app/crawler/browser.py:413-456 | repeated passes over the attached links, keeping the first row of each article, until as many as displayed are there or no link follows |
| CollectorLoops.VisitArticles | backend/app/crawler/browser.py:504-559 | the article loop visits what is in scope and not yet known, and leaves a warning where details cannot be parsed |
| CollectorLoops.CollectVisibleGroup | backend/app/crawler/browser.py:458-601 | one card is opened, its own HTML and rows read, their articles visited, and closed again if it was opened; a card without links raises |
| CollectorLoops.AssembleListings | backend/app/crawler/browser.py:991-1056 | the group loop raises on the first unreadable, incomplete or warned group, the latter two in full scope only |
| CollectorLoops.CollectListings | backend/app/crawler/browser.py:948-1086 | the trade type loop computes the collection, and in full scope raises or returns a complete payload |
| CollectorTurns.CollectedInTurns | backend/app/crawler/browser.py:458-767 | whatever the page does: every listing was read in a turn of its own from one card, whose key had not been seen in its trade type, with the HTML that card answered and the rows read after opening that card |
| CollectorTurns.NothingVisited | backend/app/crawler/browser.py:504-559 | with broker details switched off no article is visited: the collection is the same however visits would be answered |
| CollectorStill.StillCollection | backend/app/crawler/browser.py:948-1086 | a collection of a page that stands still while it scrolls, and is not asked for particular articles, returns completed: in full scope with every card of every list, with a limit with the first so many of each, in order of first appearance, each with its own HTML, rows and articles |
| CollectorStill.ShownMeaning | backend/app/crawler/browser.py:692-741 | the cards of a list, over all its scroll positions: every key in view once, by the card that had it first |
| CollectorComplete.VisitRowsMeaning | backend/app/crawler/browser.py:504-559 | gathered articles are distinct, were unknown and are linked from the rows; without a warning every row's article in scope is known |
| CollectorComplete.ExpandedRowsOk | backend/app/crawler/browser.py:413-456 | the rows have distinct articles and are no fewer than the card displays |
| CollectorComplete.ScanFromOk | backend/app/crawler/browser.py:692-767 | a returning scan collected one group per card key, no article twice, no more groups than the limit and in full scope no fewer than the count the page displayed last |
| CollectorComplete.FullCollection | backend/app/crawler/browser.py:948-1086 | whatever the page does, a full collection that returns is completed, has per trade type at least the last displayed number of listings, exactly the expected number of articles per listing, no article twice and every linked article |
| CollectorComplete.CompletedExactly | backend/app/crawler/browser.py:1030-1086 | whatever the page does, in any scope: a returned payload is completed exactly when no listing has a warning and every article asked for is in some listing |
| CollectorComplete.ScopedCollection | backend/app/crawler/browser.py:115-131 | in any scope no article comes twice or from outside the scope, and no trade type exceeds its limit |
| CollectorEnds.ScanMoveAdvances | backend/app/crawler/browser.py:696-767 | on a fair page every iteration raises, returns or moves pass start, cards seen and scroll rest forward lexicographically |
| CollectorEnds.ScanEnds | backend/app/crawler/browser.py:684-767 | so the scan ends |
| CollectorEnds.CollectEnds | backend/app/crawler/browser.py:948-1086 | and so does every collection on a fair page |
| HtmlTree.PreorderIsTokenOrder | backend/app/crawler/parsers/_html.py:51-85 | for every token stream, also mis-nested, the tree lists elements and texts in pre-order exactly in token order |
| HtmlPaths.PlacesAreOpenElements | backend/app/crawler/parsers/_html.py:51-85 | for every token stream, also mis-nested: every element and text of the tree hangs under exactly the elements open when its token came, where an end tag closes through the innermost open element of its name or nothing |
| HtmlTree.TreesRoundTrip | backend/app/crawler/parsers/_html.py:57-85 | at any point of any document the tokens of well-formed trees append exactly those trees |
| HtmlTree.RoundTripExact | backend/app/crawler/parsers/_html.py:57-85 | the tokens of a document give it back exactly when its void elements are empty |
| HtmlTree.TextIsWords | backend/app/crawler/parsers/_html.py:39-48 | the text of a document is the words of all its character data, joined by single spaces |
| HtmlParser.HtmlNode.Text | backend/app/crawler/parsers/_html.py:39-48 | the recursive text method computes the text of the tree a node stands for |
| HtmlParser.TreeParser.HandleStartTag | backend/app/crawler/parsers/_html.py:57-66 | a start tag appends a node in place and opens it unless it is void |
| HtmlParser.TreeParser.HandleStartEndTag | backend/app/crawler/parsers/_html.py:68-75 | a self-closing tag appends a closed node |
| HtmlParser.TreeParser.HandleEndTag | backend/app/crawler/parsers/_html.py:77-82 | an end tag pops through the innermost node of its tag and is ignored if there is none |
| HtmlParser.TreeParser.HandleData | backend/app/crawler/parsers/_html.py:84-85 | text goes to the innermost open node |
| HtmlParser.TreeParser.FeedTokens | backend/app/crawler/parsers/_html.py:51-85 | every token stream leaves the nodes holding the frames of the value-level builder |
| HtmlParser.ParseTokens | backend/app/crawler/parsers/_html.py:88-92 | the returned node is the root of exactly the tree of the tokens |
| HtmlParser.DocumentText | backend/app/crawler/parsers/_html.py:39-92 | text read off the parsed document is the words of all character data of its tokens, joined by single spaces |
| HtmlParser.PopToLinked | backend/app/crawler/parsers/_html.py:77-82 | popping nodes completes their elements in the nodes above |
| HtmlParser.LinkedIsPath | backend/app/crawler/parsers/_html.py:51-82 | the stack is always the rightmost path from the root |
| Aggregator.UniqueArticles | backend/app/domain/aggregator.py:26-32 | sorting and keeping the first of each id |
| Aggregator.UniqueMeaning | backend/app/domain/aggregator.py:26-32 | one article per id, ascending, each from the input, no id dropped |
| Summaries.UniqueFirst | backend/app/domain/aggregator.py:26-32 | of each id exactly the first copy in the input is kept |
| Aggregator.AggregateOptions | backend/app/domain/aggregator.py:35-62 | the option loops compute the tags and the conflicts of the readings |
| Aggregator.AggregateBrokerArticles | backend/app/domain/aggregator.py:69-128 | the aggregate and its warnings, of which the rows of `Summaries` say what they are |
| Aggregator.AggregateIgnoresOrder | backend/app/domain/aggregator.py:69-128 | permuting or repeating articles, copies being equal, changes nothing |
| Aggregator.CountsAddUp | backend/app/domain/aggregator.py:78-126 | loan counts add up to the number of distinct articles, move-in counts to those stating a date |
| Summaries.LoanSummary | backend/app/domain/aggregator.py:113-117 | every loan label counts the distinct articles classified so |
| Summaries.MoveInSummary | backend/app/domain/aggregator.py:78-84 | every move-in value counts the distinct articles that state it |
| Summaries.RoomBathSummary | backend/app/domain/aggregator.py:98-111 | every pair of room and bathroom counts counts the distinct articles that state it; articles stating neither are left aside |
| Summaries.FeeSummary | backend/app/domain/aggregator.py:86-97 | the fees run from the least to the greatest stated one, are single when one is stated and empty when none is |
| Summaries.OptionSummary | backend/app/domain/aggregator.py:35-62 | an option is shown exactly when some article lists it, with a tag of the one count read, of the least and the greatest of several, or of no count when it was read without one and with at most one |
| Summaries.WarningsExact | backend/app/domain/aggregator.py:69-128 | a warning is there exactly when an article brings it or two distinct articles differ in the option, date, fee, rooms or loan class it is about |
| Aggregator.OptionConflictExact | backend/app/domain/aggregator.py:35-62 | an option's conflict warning appears exactly when it was read in more than one way, a missing count being one way |
| Money.FormatKorean | backend/app/services/export_service.py:191-207 | the printing loop computes sign and parts |
| MoneyPrints.GroupedExact | backend/app/services/export_service.py:191-207 | a printed count writes the number with a comma before every three digits from the right and no needless zero |
| MoneyPrints.KoreanExact | backend/app/services/export_service.py:191-207 | for every amount: the sign once, then hundred millions, ten-thousands and won, each written if it is not zero, with one space between two of them |
| MoneyPrints.ManwonExact | backend/app/domain/normalizer.py:60-64 | whole ten-thousands are written in them and every other amount in won |
| MoneyForms.SingleRead | backend/app/crawler/parsers/_html.py:264-284 | however commas and spaces stand in it: one number, signed or not, with a decimal part or without, with a unit or none, is read as the number times the unit, cut off towards zero |
| MoneyForms.EokRead | backend/app/crawler/parsers/_html.py:234-262 | likewise: hundred millions and a number are read as their sum, the number counting tens of millions, ten-thousands or won by its unit, and ten-thousands without one |
| MoneyForms.EokManWonRead | backend/app/crawler/parsers/_html.py:238-252 | likewise: hundred millions, ten-thousands and won are read as their sum |
| MoneyForms.ManWonRead | backend/app/crawler/parsers/_html.py:268-276 | likewise: ten-thousands and won |
| MoneyForms.NothingRead | backend/app/crawler/parsers/_html.py:228-284 | a text without digits is no amount |
| MoneyText.AroundRead | backend/app/crawler/parsers/_html.py:228-284 | with other text before or behind it, free of digits and of a sign or unit next to the amount, an amount with a unit is read as it is alone, and a number without a unit is not read at all |
| MoneyForms.HalfEvenNearest | backend/app/crawler/parsers/_html.py:224-225 | the decimal rounding is to the nearest unit, of two equally near ones to the even |
| MoneyRoundTrip.ManwonRoundTrip | backend/app/domain/normalizer.py:60-64 | parsing inverts printing exactly when the amount is not a whole ten-thousand or has at most 28 digits before its zeros; in particular below ten to the 28th |
| MoneyRoundTrip.KoreanRead | backend/app/crawler/parsers/_html.py:228-262 | what the parser reads from a Korean amount of any size, its products and sums rounded to 28 digits |
| MoneyRoundTrip.KoreanRoundTrip | backend/app/crawler/parsers/_html.py:228-284 | for every amount: parsing inverts the Korean printer exactly when the amount has at most 28 digits before its zeros and lacks ten-thousands or single won or, if negative, has a single part |
| MoneyRoundTrip.WonIsLost | backend/app/crawler/parsers/_html.py:234-262 | 10001 is read back as 10000 |
| MoneyRoundTrip.SignIsLost | backend/app/crawler/parsers/_html.py:234-262 | minus 100010000 is read back as minus 99990000 |
| MoneyRoundTrip.KoreanInjective | backend/app/services/export_service.py:191-207 | different amounts of any size print differently |
| MoneyRoundTrip.RoundExact | backend/app/crawler/parsers/_html.py:224-225 | rounding to 28 digits changes nothing exactly when the amount has at most 28 digits before its zeros |
| MoneyForms.SignificantExact | backend/app/crawler/parsers/_html.py:224-225 | the amounts rounding leaves alone are those of at most 28 digits followed by zeros |
| Schedules.CalculateNextRun | backend/app/services/schedule_service.py:50-76 | the bounded search over eight days |
| Schedules.NextRunIsLeast | backend/app/services/schedule_service.py:50-76 | for every legal rule it succeeds with the least occurrence strictly after the given instant, at most a day, three days or a week away |
| Schedules.NextRunFailsExactly | backend/app/services/schedule_service.py:50-76 | it fails exactly for a weekly rule without a real weekday |
| Schedules.OccursExactly | backend/app/services/schedule_service.py:50-76 | an instant is an occurrence exactly when it is the rule's time of day, in its zone, on one of its days: any, any but Saturday and Sunday, or whole weeks from its weekday |
| Schedules.ScheduleTable.Create | backend/app/services/schedule_service.py:170-205 | one schedule per source, whose next run is an occurrence of its rule; a weekday is stored with weekly rules only |
| Schedules.ScheduleTable.Edit | backend/app/services/schedule_service.py:207-253 | what a patch changes, when it starts the wait anew and when it is refused |
| Schedules.EditWaits | backend/app/services/schedule_service.py:207-253 | a patch that sends none of cadence, time of day, zone and weekday and does not enable the schedule leaves its next run alone; any other puts it at the first occurrence after now |
| Schedules.ScheduleTable.Delete | backend/app/services/schedule_service.py:255-268 | hard deletion of disabled schedules only; otherwise the schedule is disabled |
| Schedules.ScheduleTable.EnqueueDue | backend/app/services/schedule_runner_service.py:27-139 | due is the sum of enqueued, deduplicated, locked and failed; every due schedule that was not locked moves strictly past now to an occurrence of its rule, and nothing else moves |
| ScheduledRuns.TurnMeaning | backend/app/services/schedule_runner_service.py:60-139 | a due schedule's turn is a run of the backend that hits no stored results; it counts as enqueued exactly when the queue accepts and the source has no active run, as deduplicated exactly when an active run has the schedule's options; what it leaves behind by what it counts as |
| ScheduledRuns.CycleLeads | backend/app/services/schedule_runner_service.py:27-139 | a whole cycle, whatever else the backend does between the turns, is a run of the backend |
| ScheduledRuns.RunCycle | backend/app/services/schedule_runner_service.py:27-139 | the table moves as the outcomes of those turns say: exactly the enabled schedules whose time has come take a turn, every one not locked moves past now, nothing else moves, and each count is the number of turns with that outcome |
| Notifications.OrderedMeaning | backend/app/services/notification_service.py:213-240 | the ordered query has exactly the wanted rows, newest first |
| Notifications.PageExact | backend/app/services/notification_service.py:205-263 | a page, of any cursor, holds the newest rows that follow it, newest first, as many as the limit allows, with a next cursor exactly when rows are left, the key of its last item |
| Notifications.FollowListsAll | backend/app/services/notification_service.py:205-263 | following the cursor from the start stops and lists every notification of the user exactly once in order, for every limit |
| Cursor.DecodeEncode | backend/app/services/notification_service.py:96-104 | URL-safe base64 (sections 4 and 5 of RFC 4648) round-trips for every payload |
| Cursor.EncodeExact | backend/app/services/notification_service.py:96-104 | every three bytes become four letters of the URL-safe alphabet with the same bits, the last group padded (sections 4 and 5 of RFC 4648) |
| Cursor.CursorRoundTrip | backend/app/services/notification_service.py:96-115 | stripping and restoring the padding (section 3.2 of RFC 4648) loses nothing |
| Cursor.KeyRoundTrip | backend/app/services/notification_service.py:96-115 | a cursor handed out is not empty and leads back to its key |
| Cursor.CursorsListAll | backend/app/services/notification_service.py:205-263 | following next_cursor strings from no cursor stops without an error and lists every notification of the user exactly once in order, for every limit |
| LocalDispatcher.Dispatcher.Enqueue | backend/app/runtime/local_dispatcher.py:32-43 | a run is submitted exactly when it has no unfinished future, and becomes the registered one |
| LocalDispatcher.Dispatcher.Discard | backend/app/runtime/local_dispatcher.py:45-48 | a late callback removes its own future and never one enqueued since, so what is unfinished stays so |
| LocalDispatcher.Dispatcher.Cancel | backend/app/runtime/local_dispatcher.py:50-54 | only a waiting future is cancelled |
| LocalBackend.LocalRefines | backend/app/runtime/local_dispatcher.py:19-54 | every run of the backend with the in-process queue is a run of the backend with the abstract one, so its guarantees hold; and no two executions overlap and no run has two unfinished futures |

## Left out

- HTTP routes, React pages, XLSX writing, Celery and Redis, logging, configuration, authentication: plumbing around the cores. The task queue is a set of runs that may be delivered any number of times, the source lock a dispatch outcome.
- SQL and ORM mechanics: queries are filters and sorts over the tables, transactions atomic steps; isolation between two result transactions is not modelled.
- Persistence.Persisted: reports the first failing check of one fixed order; when a listing has several faults the source may name another one of them. The order of a listing's articles, which the source sorts, is not observable in the tables.
- Apartment rows and snapshots, apartment details, market details, provider and link columns of articles, warnings of a listing, capture times of single listings and articles: copied through without decisions the engine depends on.
- Notifications created with events and their preferences: single-branch checks. The list and its cursors are modelled.
- Listing groups' own state columns, which the engine writes once and never reads.
- `previous_price` and `discovered_at` of a page entry, trade-type and status filters of a page, the broker level of the frontend comparison (entries of a page carry no registrations), trade-type history counts and dashboard metrics: sums, filters and lookups over what is modelled.
- A split read and write of `cancel`: it is taken as one check and set; split, a claimed run could be overwritten as cancelled.
- Crash recovery and liveness of running runs: the source has none.
- CollectorStill.StillCollection: covers collections that look for no particular articles; what those that do promise on any page is `CollectorComplete.ScopedCollection`, `CollectorComplete.CompletedExactly` and `CollectorTurns.CollectedInTurns`.
- Collector.ScanFrom: counts its iterations against a bound, as do the broker row passes; a run that has not returned within the bound is `Running`, and `CollectorEnds.CollectEnds` shows that some bound suffices on a fair page. Opening a card, waiting for its links and closing it are single questions to the page, so their polling and retries are not modelled; neither are delays, blocked responses and the panel of the complex.
- HtmlTree.Parse: starts from tokens; tokenising, character references and lower-casing are the library's. `iter_nodes` and the lookups over a finished tree are left out as easy.
- Aggregator.Aggregated: option aliases, move-in aliases and loan classes are arbitrary functions; summaries are the multisets and spans they print, so the order of rooms that tie in the room summary is not modelled.
- Money.ParseMoney: only ASCII digits count as digits; exponents beyond the decimal context's limits are not modelled. The scanner for money inside longer text is left out.
- CollectorLoops.CollectVisibleGroup: a card opened before an error is not closed again, and the market details of a card are not read; both leave groups and articles as they are.
- Aggregator.AggregateBrokerArticles: summaries stand as the multisets and spans their strings print, and the room summary without its order.
- Schedules.ScheduleTable.EnqueueDue: the outcome of each dispatch is a parameter; `ScheduledRuns.RunCycle` gives it the outcomes of turns on the backend. One instant stands for all the clock readings of a cycle.
- ScheduledRuns.Turned: nothing else of the backend runs within one turn, only between turns; what other interleavings keep is `Guarantees.RunGuarantees`.
- Schedules.NextRun: the zone is at a fixed offset, as Asia/Seoul is; ownership and existence of the source are decided before the table is asked.
- Cursor.Decode: rejects characters outside the alphabet, which the library skips; cursors handed out contain none.
- LocalDispatcher: shutting down and the process-wide instance.
