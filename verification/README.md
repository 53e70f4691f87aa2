# Verification model of the enterprise agent platform

The repository runs a small estate of governed agents over fictional company data. This project
models the parts of it whose correctness is a claim about many calls, many inputs or a whole run,
and proves those claims in Dafny. `dafny verify dfyconfig.toml` checks everything.

| Module | What it models |
| --- | --- |
| `Relational`, `Repository`, `Toolbox` | the database, the row-scoped repository (five reads, one write), the tools built on it and their audit trail |
| `Scoping`, `Handlers`, `ToolCalls`, `CaseUpdates`, `Simulation`, `Directory` | what reads, tools and the write do, told from the stored rows, the caller's scope and the arguments |
| `NonInterference` | that no answer depends on an out-of-scope row, for one call and for every interleaving of principals |
| `ReadAgreement` | that list, count, fetch, group and hierarchy reads agree with one another |
| `Integrity` | the dataset checker: keys, references, hierarchy |
| `Random`, `Roster`, `OrderBook`, `TravelNetwork` | the seeded generator over an arbitrary random stream, and that what it makes passes the checker |
| `Regions`, `Requirements`, `Ranking` | region elimination on mutable regions, its equality with one filter and one sort, and what qualifying and ranking mean |
| `CostTiers`, `CostReport`, `Estimates`, `PriceRetry` | graduated prices, the budget gate, what an estimate says of each line, and the bounded price client |
| `Glob`, `Inventory` | scope patterns, and the two-sided check of live resources against declarations |
| `Experiments`, `Evaluations`, `CandidatePass`, `Release` | paired evaluations, which runs are accepted, what passing them proves, and the promote/rollback protocol |
| `Traffic`, `Schedule` | the holiday calendar, and the traffic schedule with its hourly cap |
| `Text`, `Sorting`, `Arithmetic`, `Wrappers` | string identifiers, a stable sort, integer division, result types |

Objects the program mutates are classes here (`ScopedRepository`, `BoundToolbox`, `Region`, the
route builder, `PriceClient`, `Project`), loops are loops with invariants, and each is proved equal
to a function on values; the results about runs are lemmas about those functions. Money is integer
cents in the generator and reals in the cost engine. Live Azure and price answers, evaluation
results, file contents and random draws are parameters over which everything is quantified.

## Where the code and its documentation disagree

- `check_hierarchy` is documented to leave no manager outside the tree, but a manager missing from
  the table simply ends the walk. `DanglingManagerGoesUnreported` gives such rosters, and
  `CleanHierarchyReachesRootIff` the exact condition. The foreign-key check supplies it.
- Grouping keeps a null group, but a null filter is skipped, so the count for that group is in
  general not its size: `ReportedGroupIsCount` says exactly when it is, `NullGroupIsMiscounted`
  gives two rows where it is not.
- A group below the cohort floor is to be dropped without its size, but the count has no floor:
  `DroppedGroupIsCounted` gives the size of every such group that is not the null one.
- A caller of the hierarchy is not to know whether a chain ended or their scope did; the last
  record's manager column tells (`ChainTellsWhyItStopped`, `HiddenManagerIsNamed`).
- Tier floors are compared in base units but sorted in billing units. `ChargeIsRightIff` says
  exactly when the loop is right. Tiers of one meter with mixed units can be billed a
  negative amount (`MixedUnitsBreakTheOrder`), and the budget gate is then not monotone in the
  modules enabled (`MixedUnitsBreakTheGate`; exactly when it is, `GateIsMonotoneForAllIff`).
- A price query stops after twenty pages and reports the rows so far as complete (`TruncatedIff`,
  `EndlessCatalogueIsTruncated`).
- Employees are named by walking the vocabulary so as not to repeat, but the parts are joined with
  spaces; `NamesAreUnique` has the exact condition and `SpacedNamesClash` two people of one name.
- Pinning a version reads the endpoint and then updates it in a separate call. The refusal to
  overwrite another decision holds exactly under the condition of `CheckHoldsUntilUpdate`;
  `DecisionsCanBeOverwritten` shows the failing family.
- A receipt is written before the route changes, and nothing ties it to a promotion that went
  through: `ReceiptIsHonouredIff` says exactly when it is honoured, `UnusedReceiptIsHonoured` that
  one left by a crashed promotion can be.
- A fixed holiday on February 29 loads, because 2024 is a leap year, and then raises
  (`RaisesExactlyOnLeapDays`, `LeapDayRuleLoadsAndRaises`).
- Travel is capped at two conversations an hour, but loading checks only the weekday slots for it:
  `QuietCapIff` has the condition for weekends and holidays, `WeekendCapIsNotChecked` a plan that
  loads and goes beyond the cap.

## Model

| member | source | states |
|---|---|---|
| `Repository.ScopedRepository.BuildFilter` | src/contoso_foundry/toolbox/repository.py:172-207 | the clause loop yields the filter clause in key order, or refuses the first key that is not filterable |
| `ReadAgreement.FilterMeaning` | src/contoso_foundry/toolbox/repository.py:172-207 | the clause is accepted exactly when every key is filterable, and then selects exactly the rows that meet every filter, whatever order the keys came in |
| `ReadAgreement.BindingKeepsEquality` | src/contoso_foundry/toolbox/repository.py:172-207 | binding neither joins arguments Python tells apart nor parts those it holds equal |
| `Scoping.ServedExactly` | src/contoso_foundry/toolbox/repository.py:72-170 | for each of the fourteen scoped tables: a row is served exactly when it is stored and its owner (itself, its customer, the customer of its order or case, its location, its traveller) has a region in scope, or, for HR policies only, the region GLOBAL |
| `Scoping.OtherTables` | src/contoso_foundry/toolbox/repository.py:142-164 | the four company-wide tables are served whole; identities are never served, and an undeclared table has no scope path |
| `Scoping.ServedIsTheTableInScope` | src/contoso_foundry/toolbox/repository.py:72-170 | where keys are unique, what is served is the stored table with the rows out of scope struck out, each once |
| `Scoping.ListedRowsAreInScope` | src/contoso_foundry/toolbox/repository.py:209-246 | a listed row is a stored row in scope that meets the filters, shown whole or without exactly its personal columns |
| `Scoping.CountIsTheRowsInScope` | src/contoso_foundry/toolbox/repository.py:248-258 | the count is the number of stored rows in scope that meet the filters |
| `Scoping.FetchIsInScope` | src/contoso_foundry/toolbox/repository.py:313-331 | a fetch finds a stored row in scope with the key if there is one, and otherwise nothing |
| `Directory.DirectoryMeans` | src/contoso_foundry/toolbox/repository.py:260-279 | the directory is exactly the locations some route leaves or reaches, each label once and in order, or an error because there are more than two hundred |
| `Repository.ScopedRepository.WalkHierarchy` | src/contoso_foundry/toolbox/repository.py:337-361 | the walk with its visited set and depth bound returns the chain of visible managers |
| `ReadAgreement.ChainIsAManagementChain` | src/contoso_foundry/toolbox/repository.py:337-361 | the chain is within the depth, every record is visible, each is the manager of the one before, nobody is visited twice |
| `ReadAgreement.ChainStopsForAReason` | src/contoso_foundry/toolbox/repository.py:337-361 | a chain shorter than the depth ends at the top, at a record the scope cannot see, or on a cycle |
| `ReadAgreement.ChainTellsWhyItStopped` | src/contoso_foundry/toolbox/repository.py:337-361 | the last record of a chain shorter than the depth names no manager exactly when the chain ended there; otherwise it names one the scope does not show, or one already in the chain |
| `ReadAgreement.HiddenManagerIsNamed` | src/contoso_foundry/toolbox/repository.py:340-343 | two rosters with chains of one record, one ending at the top and one at the edge of scope, and two different answers |
| `Repository.ScopedRepository.WriteSupportCase` | src/contoso_foundry/toolbox/repository.py:405-435 | the read-before-write refines the relational update: new database and answer, error branches included |
| `Repository.AssignedColumns` | src/contoso_foundry/toolbox/repository.py:403-430 | a write changes no column other than those assigned |
| `CaseUpdates.UpdateMeans` | src/contoso_foundry/toolbox/repository.py:405-435 | an update is refused, writing nothing, exactly for a case not in scope, another column or a null; otherwise exactly the cases of that id change, in exactly the assigned columns and to the assigned values |
| `NonInterference.UpdateSupportCaseEffect` | src/contoso_foundry/toolbox/repository.py:413-435 | the re-read after a write never fails: the caller gets the row it saw with exactly its assignments, and otherwise nothing is written |
| `Toolbox.BoundToolbox.Open` | src/contoso_foundry/toolbox/identity.py:97-122 | a toolbox exists only for a principal the directory resolves, bound to exactly that scope |
| `ToolCalls.ResolvedScopeIsStored` | src/contoso_foundry/toolbox/identity.py:97-122 | the resolved scope has the employee, persona, roles and regions of a stored identity of that object and tenant; the other outcomes exactly |
| `Toolbox.BoundToolbox.ValidateArguments` | src/contoso_foundry/toolbox/tools.py:51-109 | the argument loop returns the cleaned arguments or the first fault |
| `Toolbox.ValidateAcceptsExactly` | src/contoso_foundry/toolbox/tools.py:51-109 | arguments are accepted exactly when all are declared, none required is missing and each is acceptable; only non-null ones reach the handler |
| `ToolCalls.ValidMeans` | src/contoso_foundry/toolbox/tools.py:51-109 | arguments pass exactly when none is undeclared or missing and each has the declared type, pattern, choice and range, or is a null nothing requires |
| `Toolbox.BoundToolbox.Dispatch` | src/contoso_foundry/toolbox/tools.py:208-224 | validation, then roles, then the handler, then the result schema: the new database and answer are those of the call |
| `Toolbox.BoundToolbox.Invoke` | src/contoso_foundry/toolbox/tools.py:197-244 | every call appends exactly one audit entry, success or failure |
| `ToolCalls.CallIsRefusedExactly` | src/contoso_foundry/toolbox/tools.py:197-224 | no-role is answered exactly to well-formed calls by holders of none of the roles, and never to a holder of any one; unknown and unimplemented tools exactly; the database is then unchanged |
| `ToolCalls.AnswerMeans` | src/contoso_foundry/toolbox/tools.py:197-224 | an answer implies a held role, well-formed arguments and the declared shape; only case updates by a role holder change the database |
| `ToolCalls.HandlerDecides` | src/contoso_foundry/toolbox/tools.py:218-224 | past those checks the handler decides: its refusal or conforming result is the answer, and its write stands either way |
| `ToolCalls.EntryTells` | src/contoso_foundry/toolbox/tools.py:225-244 | an audit entry says success exactly for answers, a permission error exactly for want of a role or for others' bookings, and how many rows an answer held |
| `Handlers.ListMeans` | src/contoso_foundry/toolbox/repository.py:209-246 | a list read succeeds exactly when every filter is allowed, and holds rows that may be read and fit, in key order, all of them below the limit |
| `Handlers.ReadMeans` | src/contoso_foundry/toolbox/tools.py:250-542 | the answer of each reading tool, from its arguments and the stored rows in scope: its own table, its own key, its own options |
| `ToolCalls.CallAnswers` | src/contoso_foundry/toolbox/tools.py:197-542 | and that is what the whole call answers, with the null arguments dropped |
| `Handlers.BookingsMean` | src/contoso_foundry/toolbox/tools.py:472-479 | others' bookings are refused exactly to non-coordinators who ask for them; otherwise their own, or for coordinators whatever fits |
| `Handlers.OrderMeans` | src/contoso_foundry/toolbox/tools.py:325-336 | an order lookup succeeds exactly when an id is given, and finds that order, with its lines unless declined |
| `Handlers.CaseMeans` | src/contoso_foundry/toolbox/tools.py:507-522 | a case lookup finds that case, with its notes exactly if asked for, internal ones only for those who may write |
| `Handlers.RosterCountIsExact` | src/contoso_foundry/toolbox/tools.py:491-493 | the roster count is the number of employees in scope that fit |
| `Handlers.RosterGroupsMean` | src/contoso_foundry/toolbox/tools.py:501-505 | the roster groups are exactly those of the fitting employees that reach the floor, with their sizes |
| `ToolCalls.UpdateCallMeans` | src/contoso_foundry/toolbox/tools.py:528-532 | the updating tool makes the assignments given to the case given, and nothing where none is |
| `Directory.ResolutionMeans` | src/contoso_foundry/toolbox/tools.py:351-376 | a place name is unique, ambiguous or not found exactly as one, several or no endpoints are named by all its words |
| `Simulation.PolicyMeans` | src/contoso_foundry/toolbox/tools.py:386-400 | the policy is one of the caller's own region and of their department's kind; none exactly when their record is out of scope or no listed policy is |
| `Simulation.SimulationMeans` | src/contoso_foundry/toolbox/tools.py:405-470 | the simulation is of a stored fare of the route, on the dates asked for, under that policy: refused exactly for class or seats, approval needed exactly for price or notice |
| `Simulation.PlannableIsSimulated` | src/contoso_foundry/toolbox/tools.py:405-470 | a published fare, a policy and readable dates are always answered, unless the trip starts too early or ends before it starts |
| `Simulation.UnpublishedIsRefused` | src/contoso_foundry/toolbox/tools.py:406-412 | a fare is unpublished exactly when it is not among those listed for its route |
| `NonInterference.ReadAgrees` | src/contoso_foundry/toolbox/tools.py:250-542 | on two databases the scope cannot tell apart every read handler gives the same answer or failure |
| `NonInterference.ViewAfterUpdate` | src/contoso_foundry/toolbox/repository.py:405-435 | what any scope sees of the cases after a write is the write applied to what it saw before: no row changes region |
| `NonInterference.UpdateKeepsAgreement` | src/contoso_foundry/toolbox/repository.py:405-435 | a write leaves two indistinguishable databases indistinguishable |
| `NonInterference.CallAgrees` | src/contoso_foundry/toolbox/tools.py:197-244 | one call, read or write, on indistinguishable databases: same answer, and still indistinguishable afterwards |
| `NonInterference.CallChangesOnlyVisibleCases` | src/contoso_foundry/toolbox/repository.py:405-435 | no call adds, removes or moves a row or touches another table; a case that changed was visible to the caller |
| `NonInterference.OneRegionPerCase` | src/contoso_foundry/toolbox/repository.py:83-85 | with unique keys a case appears once in the joined table, so it is attributed to one region |
| `NonInterference.OutsideWriteUnseen` | src/contoso_foundry/toolbox/repository.py:142-170 | a write by a principal with disjoint regions changes nothing a scope can see |
| `NonInterference.NonInterferenceOverRuns` | src/contoso_foundry/toolbox/tools.py:197-244 | in every interleaving, what principals confined to some regions see, audit entries and errors included, is unchanged when every call by principals of disjoint regions is deleted |
| `ReadAgreement.ListLengthIsCount` | src/contoso_foundry/toolbox/repository.py:221-258 | a list has the length of the smaller of the count and the clamped limit; list and count fail together |
| `ReadAgreement.ListPrefix` | src/contoso_foundry/toolbox/repository.py:240-246 | a smaller limit gives a prefix of what a larger one gives |
| `ReadAgreement.ListIsCapped` | src/contoso_foundry/toolbox/repository.py:240 | how many rows a list shows, for every limit asked for |
| `ReadAgreement.ListAscends` | src/contoso_foundry/toolbox/repository.py:240-246 | its first key column ascends: nulls, numbers, then text in code-point order |
| `ReadAgreement.ListIsOrdered` | src/contoso_foundry/toolbox/repository.py:232-246 | a list is in primary-key order, and the matching rows it leaves out sort after every row it shows |
| `ReadAgreement.ListedRowsMatch` | src/contoso_foundry/toolbox/repository.py:221-246 | every listed row is a served row that meets the filters, less the hidden columns |
| `ReadAgreement.GroupsSumToCount` | src/contoso_foundry/toolbox/repository.py:376-388 | before the cohort gate the group counts add up to the count |
| `ReadAgreement.AggregateReports` | src/contoso_foundry/toolbox/repository.py:363-393 | a group is reported exactly with its size and from the floor upward, and the aggregate refused only when every group is below it |
| `ReadAgreement.ReportedGroupIsCount` | src/contoso_foundry/toolbox/repository.py:363-393 | a reported group reaches the cohort floor, and equals the count with its own value added as a filter exactly when that value is not null or every row counted has a null there |
| `ReadAgreement.NullGroupIsMiscounted` | src/contoso_foundry/toolbox/repository.py:363-393 | two visible employees, one without a manager: that group is reported with one member and counted as two |
| `ReadAgreement.DroppedGroupIsCounted` | src/contoso_foundry/toolbox/repository.py:363-393 | a group too small to report is missing from the aggregate, and counting with its value as a filter gives its exact size all the same, unless that value is null |
| `ReadAgreement.OrdinaryReadersSeeOwnBookings` | src/contoso_foundry/toolbox/tools.py:472-479 | without the coordinating role every booking listed is the caller's own |
| `ReadAgreement.OrderLinesBelongToTheOrder` | src/contoso_foundry/toolbox/tools.py:325-336 | the lines returned with an order are lines of that order and visible in themselves |
| `ReadAgreement.ReadersNeverSeeInternalNotes` | src/contoso_foundry/toolbox/tools.py:507-522 | a caller without write permission never sees an internal note |
| `Integrity.CheckPrimaryKeys` | src/contoso_foundry/data/integrity.py:66-80 | nothing is reported exactly when no key part is null or empty and no two rows of a table share a key |
| `Integrity.KeysCleanMeans` | src/contoso_foundry/data/integrity.py:62-80 | for one table: clean exactly when no stored row lacks a key column and any two differ in one |
| `Integrity.CheckForeignKeys` | src/contoso_foundry/data/integrity.py:83-118 | nothing is reported exactly when every reference names a key and every value is allowed-null or present |
| `Integrity.WalkUp` | src/contoso_foundry/data/integrity.py:228-236 | cycle detection is sound and complete: a cycle is reported exactly when the walk would never end |
| `Integrity.RepeatNeverEnds` | src/contoso_foundry/data/integrity.py:231-236 | a cursor seen twice means the walk never reaches the end |
| `Integrity.CheckHierarchy` | src/contoso_foundry/data/integrity.py:217-237 | nothing is reported exactly when there is one root and every walk ends |
| `Integrity.CleanHierarchyReachesRootIff` | src/contoso_foundry/data/integrity.py:217-237 | where the check is clean, every chain reaches the root if and only if no manager is missing from the table; the docstring promises the former outright |
| `Integrity.DanglingManagerGoesUnreported` | src/contoso_foundry/data/integrity.py:236 | rosters with a missing manager that the hierarchy check accepts |
| `Integrity.CleanChecksReachTheRoot` | src/contoso_foundry/data/integrity.py:66-237 | key, foreign-key and hierarchy checks all clean, on any dataset: every chain reaches the single root |
| `Roster.Make` | src/contoso_foundry/data/generate.py:296-319 | an employee row: identifier, name, title, team and manager as given, a site of its own region, and terms and length of service in range |
| `Roster.Employees` | src/contoso_foundry/data/generate.py:265-350 | for every stream: the volume error exactly below the guard, otherwise exactly `total` rows, one root, every other manager at an earlier index one level up in the right region and department |
| `Roster.EveryTeamHasItsLead` | src/contoso_foundry/data/generate.py:331-339 | every region and department has its lead, before the first contributor |
| `Roster.EveryTeamInTurn` | src/contoso_foundry/data/generate.py:342-350 | contributors go round the teams: any block of as many contributors as there are teams holds one for each region and department |
| `Roster.Leadership` | src/contoso_foundry/data/generate.py:321-339 | the three levels of leads, and the table contributors are assigned from |
| `Roster.NamesAreUnique` | src/contoso_foundry/data/generate.py:296-302 | for every vocabulary without an empty list: rendered names never repeat, however large the volume, exactly when the base names are pairwise distinct and none is another followed by a number |
| `Roster.PlainNamesAreUnique` | src/contoso_foundry/data/generate.py:296-302 | with no repeated entry and no space in a given name, that is exactly when no family name is another followed by a number |
| `Roster.SpacedNamesClash` | src/contoso_foundry/data/generate.py:296-302 | given names with spaces can render two people alike on the first pass, with no entry repeated and no numbered family name |
| `Roster.EmployeeIdInjective` | src/contoso_foundry/data/generate.py:305 | zero-padded identifiers are distinct for every volume, also past their width |
| `Roster.RosterPassesHierarchyCheck` | src/contoso_foundry/data/generate.py:265-350 | the generated roster passes the hierarchy check, and every chain ends within four steps |
| `Roster.RosterPassesKeyChecks` | src/contoso_foundry/data/generate.py:265-350 | it passes the key check, and its manager column the foreign-key check |
| `OrderBook.LinesFor` | src/contoso_foundry/data/generate.py:400-416 | each line sells its own entry of the sample, 1 to 24 of it, at nine tenths to the whole of its own price, multiplied out; the running total is their sum |
| `OrderBook.Bill` | src/contoso_foundry/data/generate.py:437-463 | an invoice for its order: due equals the order total, never overpaid, dated after the order |
| `OrderBook.OrdersAndInvoices` | src/contoso_foundry/data/generate.py:374-465 | for every stream the book balances, and every figure has its source: orders of given customers from their own location, lines priced from their own product, invoices paid by the order's status; the only failure is a sample larger than the catalogue |
| `OrderBook.NoProductTwice` | src/contoso_foundry/data/generate.py:400-404 | no product is on two lines of an order |
| `OrderBook.RoundIsNearest` | src/contoso_foundry/data/generate.py:404 | a price is rounded to a nearest whole cent |
| `OrderBook.LineIdInjective` | src/contoso_foundry/data/generate.py:381-410 | line ids are distinct across a book, at every volume |
| `OrderBook.ExactlyOneInvoice` | src/contoso_foundry/data/generate.py:431-463 | each order not cancelled has exactly one invoice, a cancelled one none |
| `OrderBook.InvoicedEqualsOrdered` | src/contoso_foundry/data/generate.py:431-463 | total invoiced is the total of the orders not cancelled |
| `OrderBook.CheckLines` | src/contoso_foundry/data/integrity.py:190-196 | the line loop: nothing reported exactly when every line multiplies out within tolerance, and the totals are by order |
| `OrderBook.CheckRollups` | src/contoso_foundry/data/integrity.py:182-214 | nothing is reported exactly when lines, orders and invoices agree within tolerance and no cancelled order is billed |
| `OrderBook.BalancedPassesRollups` | src/contoso_foundry/data/integrity.py:182-214 | a generated book passes the roll-up check |
| `TravelNetwork.Pairs` | src/contoso_foundry/data/generate.py:550-573 | the nested loops with the set of seen pairs keep the first occurrence of every requested pair |
| `TravelNetwork.NetworkLinksExactly` | src/contoso_foundry/data/generate.py:545-573 | a pair is a route exactly when its sites differ and share a region or one is its region's hub; no pair repeats |
| `TravelNetwork.TwoHops` | src/contoso_foundry/data/generate.py:545-573 | any two distinct sites are joined directly or through one other |
| `TravelNetwork.NetworkSize` | src/contoso_foundry/data/generate.py:545-573 | the number of routes: n(n-1) within each region and n+m-1 for each ordered pair of regions |
| `TravelNetwork.EverySiteDeparts` | src/contoso_foundry/data/generate.py:653-657 | every site has a departing route |
| `TravelNetwork.Routes` | src/contoso_foundry/data/generate.py:575-613 | one route for each pair in order, with its mode and a duration in its range; every fare belongs to exactly one route, and each route has one fare for each class sold on it |
| `TravelNetwork.CheckNaturalKeys` | src/contoso_foundry/data/integrity.py:240-253 | nothing is reported exactly when no two routes share origin, destination and mode |
| `TravelNetwork.RoutesPassNaturalKeys` | src/contoso_foundry/data/integrity.py:240-253 | the generated routes pass it, whatever was drawn |
| `TravelNetwork.Bookings` | src/contoso_foundry/data/generate.py:650-695 | every booking leaves from its traveller's site on a fare of that route under a policy of the region; the fallback branch is never taken |
| `Regions.GateResidency` | src/contoso_foundry/regions.py:152-173 | records residency on every region, in the order of its three refusals |
| `Regions.GateReliability` | src/contoso_foundry/regions.py:176-200 | records on the regions still in, and leaves the others alone |
| `Regions.GateLatency` | src/contoso_foundry/regions.py:203-221 | sets every region's distance, and records only on those still in |
| `Regions.GateResourceTypes` | src/contoso_foundry/regions.py:224-245 | one record per required type, until a region fails |
| `Regions.GateCapabilities` | src/contoso_foundry/regions.py:329-363 | succeeds exactly when every capability, and what it derives from, is documented; then one record per capability |
| `Regions.GateModelsAndQuota` | src/contoso_foundry/regions.py:262-326 | refuses, changing nothing, exactly when a probe of a survivor failed; otherwise judges models then quota and accumulates headroom |
| `Regions.JudgedOutcome` | src/contoso_foundry/regions.py:75-83 | a region is eliminated exactly when it fails a requirement; its last record is its only failure |
| `Ranking.EliminationIsTheConjunction` | src/contoso_foundry/regions.py:152-363 | after a whole run a region survives exactly when it meets the conjunction of all requirements; an eliminated one has exactly one failing gate, its last, for a requirement it does not meet |
| `Requirements.QualifyingMeans` | src/contoso_foundry/regions.py:152-363 | a region qualifies exactly when its geography is allowed, it is reliable and near enough, and every type, capability, model and quota is there |
| `Requirements.TotalHeadroomAddsUp` | src/contoso_foundry/regions.py:300-326 | headroom is the free units summed over the rows the quotas name |
| `Ranking.Rank` | src/contoso_foundry/regions.py:366-400 | prices the survivors in place, refuses when there are some and none has a price, otherwise sorts by cost, headroom, distance, name |
| `Ranking.RankIsPreorder` | src/contoso_foundry/regions.py:392-400 | the sort key, missing figures last, is a total preorder |
| `Ranking.RankedByFigures` | src/contoso_foundry/regions.py:392-400 | by the figures: no earlier basket dearer or unpriced, at equal baskets no less headroom, then no farther, then by name |
| `Ranking.RankedEntriesAre` | src/contoso_foundry/regions.py:366-400 | what is ranked is exactly the regions that qualify, each with its own price, distance and headroom |
| `Ranking.WinnerIsCheapest` | src/contoso_foundry/regions.py:415-435 | no qualifying region undercuts the winner |
| `Ranking.Select` | src/contoso_foundry/regions.py:415-435 | the whole run over mutable regions equals the reference: the three failures in order, else filter by the conjunction and sort once |
| `Ranking.FailuresMean` | src/contoso_foundry/regions.py:329-435 | a run fails exactly when a capability is undocumented, a region met all else and could not be probed, or regions qualify and none is priced |
| `Ranking.UnpricedLast` | src/contoso_foundry/regions.py:366-400 | earlier entries rank no worse than later ones, and unpriced regions come last |
| `Ranking.EnablingOnlyNarrows` | src/contoso_foundry/regions.py:90-105 | enabling modules never lets a region in and never changes its figures |
| `Ranking.EnablingStrikesFromTheRanking` | src/contoso_foundry/regions.py:90-105 | the ranking with modules enabled is the base ranking with the newly failing regions struck out, order kept |
| `Ranking.CountRemovals` | src/contoso_foundry/regions.py:558-563 | the tally gives each gate the number of regions it removed |
| `Ranking.RemovalsAddUp` | src/contoso_foundry/regions.py:558-563 | the published counts add up to the regions evaluated less those that qualified |
| `CostTiers.ResolvedTiers` | src/contoso_foundry/costs.py:223-269 | resolved tiers are all the rows of one meter at its newest date, in ascending minimum |
| `Estimates.ResolutionMeans` | src/contoso_foundry/costs.py:223-269 | a meter resolves exactly when some row is eligible and all those are of one meter, to the tiers of its newest eligible rows |
| `Estimates.GraduatedCharge` | src/contoso_foundry/costs.py:272-300 | two tiers: each part of the quantity at its own tier's unit price |
| `CostTiers.CostForQuantity` | src/contoso_foundry/costs.py:272-300 | the loop over tiers, with its early exit and unreadable units, computes the charge |
| `CostTiers.ChargedIsCost` | src/contoso_foundry/costs.py:289-300 | with readable units the charge is the cost of the tiers in base units |
| `CostTiers.EarlyExitIsTheClippedSum` | src/contoso_foundry/costs.py:293-300 | with rising floors, stopping early equals summing every clipped width times its price |
| `CostTiers.EarlyExitIsRightIff` | src/contoso_foundry/costs.py:293-300 | at non-negative prices, free tiers included, that equality holds for every quantity exactly when no tier that costs anything is followed by a lower floor and none that charges stands behind a higher one |
| `CostTiers.HarmlessIsRising` | src/contoso_foundry/costs.py:293-300 | with no free tier, that is exactly when the floors rise in base units |
| `CostTiers.ChargeIsRightIff` | src/contoso_foundry/costs.py:272-300 | the charge for readable tiers at non-negative prices is right for every quantity exactly under that condition; with no free tier, exactly when a test of adjacent floors passes |
| `CostTiers.OneUnitRises` | src/contoso_foundry/costs.py:269-290 | sorted tiers of one unit of measure have rising floors |
| `CostTiers.MixedUnitsBreakTheOrder` | src/contoso_foundry/costs.py:223-300 | catalogue rows of one meter that resolve to two positively priced tiers and are billed a negative amount |
| `CostTiers.BillIsNotNegative` | src/contoso_foundry/costs.py:272-300 | with rising floors and no negative price nothing is charged a negative amount, even where units further on are unreadable |
| `CostTiers.BilledWidthsAddUp` | src/contoso_foundry/costs.py:293-300 | the widths billed add up to the quantity above the first floor |
| `CostTiers.CostIsMonotone` | src/contoso_foundry/costs.py:272-300 | at non-negative prices a larger quantity never costs less |
| `CostTiers.CostIsSubadditive` | src/contoso_foundry/costs.py:272-300 | subadditive when prices fall from a zero first floor |
| `CostTiers.CostIsSuperadditive` | src/contoso_foundry/costs.py:272-300 | superadditive when prices rise |
| `CostReport.Evaluate` | src/contoso_foundry/costs.py:366-536 | the evaluation, its failures in order and its three lists |
| `Estimates.RefusalsInOrder` | src/contoso_foundry/costs.py:375-418 | no budget, badly declared modules, an undeclared module asked for, another currency: each refusal exactly, in that order |
| `Estimates.EnabledLineCosts` | src/contoso_foundry/costs.py:420-534 | an enabled line costs its list price times quantity, its reserve, or the catalogue's charge, and is placed exactly when that is defined |
| `Estimates.EntriesCarryTheirCost` | src/contoso_foundry/costs.py:420-534 | every entry of a report carries the cost of its own line |
| `Estimates.BudgetIsHeld` | src/contoso_foundry/costs.py:346-356 | within budget means the Azure costs alone add up to no more than the budget asked for, or else the estimate's |
| `CostReport.PlacedSide` | src/contoso_foundry/costs.py:420-534 | a line is refused exactly when its module is unknown, its billing unrecognised, or it is enabled and cannot be priced; it is excluded exactly when disabled, and Azure by its billing alone |
| `CostReport.ListsAreTheLines` | src/contoso_foundry/costs.py:420-534 | the lists are the estimate's lines filtered by enabled and by billing, in order |
| `CostReport.EveryLineLandsOnce` | src/contoso_foundry/costs.py:420-534 | every line lands in exactly one list |
| `CostReport.EveryLineIsChecked` | src/contoso_foundry/costs.py:420-435 | a report exists only if every line names a known module and a recognised billing |
| `CostReport.GateIsMonotoneForAllIff` | src/contoso_foundry/costs.py:346-356 | whatever the catalogue: dropping modules never takes an estimate over a budget it was within, for every pair of module sets and every budget, exactly when no optional module that can be priced costs less than nothing by itself |
| `CostReport.GateIsMonotoneIff` | src/contoso_foundry/costs.py:346-356 | for one pair of module sets: fewer modules stay within every budget that more are within exactly when the modules dropped do not cost less than nothing |
| `CostReport.FewerModulesStayWithinBudget` | src/contoso_foundry/costs.py:346-356 | with no negative price or reserve and tier floors that rise in base units: within budget for a set of modules implies within budget, and no dearer, for every smaller set |
| `CostReport.OneUnitIsFair` | src/contoso_foundry/costs.py:223-269 | a catalogue that keeps one unit of measure for each meter has such floors |
| `CostReport.MixedUnitsBreakTheGate` | src/contoso_foundry/costs.py:346-356 | an estimate within budget only while its optional module is enabled, on a catalogue with mixed units |
| `PriceRetry.Fetch` | src/contoso_foundry/costs.py:145-189 | the retry loop, against any stream of answers |
| `PriceRetry.RetriesInTurn` | src/contoso_foundry/costs.py:145-189 | every fault and each of the six statuses is asked again while time is left; each request gets its timeout and each wait its length |
| `PriceRetry.BackoffDoubles` | src/contoso_foundry/costs.py:175-189 | left to itself the client starts at its backoff and doubles it, up to half a minute |
| `PriceRetry.RunIsBounded` | src/contoso_foundry/costs.py:158-189 | at most `max_retries` requests, none started after the deadline, the end at most one second past it |
| `PriceRetry.StopsAtTheFirstFinalAnswer` | src/contoso_foundry/costs.py:163-189 | the first final answer is the verdict; giving up means every answer was retryable and attempts or time ran out |
| `PriceRetry.PriceClient.Query` | src/contoso_foundry/costs.py:121-143 | a memoised or offline query sends nothing; otherwise the rows read are remembered, failures are not |
| `PriceRetry.QueryIsBounded` | src/contoso_foundry/costs.py:135-140 | a query is bounded in requests and time; every page read but the last names a successor |
| `PriceRetry.RowsInPageOrder` | src/contoso_foundry/costs.py:121-143 | the rows of a query are those of its pages, in page order |
| `PriceRetry.TruncatedIff` | src/contoso_foundry/costs.py:135-143 | for every stream of answers: the pages read are those a client without the page limit reads, and the list reported as complete is truncated exactly when that client gets a twentieth page and it names a successor |
| `PriceRetry.PromptTruncatedIff` | src/contoso_foundry/costs.py:135-143 | when requests are answered at once a query succeeds, truncated exactly when each of the first twenty pages names a successor |
| `PriceRetry.EndlessCatalogueIsTruncated` | src/contoso_foundry/costs.py:135-143 | a catalogue without a last page is always reported, truncated, as a success |
| `Glob.MatchingMeans` | src/contoso_foundry/boundary.py:144-148 | a scope matches exactly when it can be cut into pieces its pattern's characters stand for |
| `Glob.MatchesBySegment` | src/contoso_foundry/boundary.py:144-148 | a scope matches exactly when segment counts agree and each segment matches its own |
| `Glob.ExpansionStaysInPattern` | src/contoso_foundry/boundary.py:159-178 | every expanded scope keeps the pattern's segment count and matches the pattern |
| `Glob.ExpansionIsComplete` | src/contoso_foundry/boundary.py:159-178 | every live parent that matches gets its query |
| `Inventory.SubjectsAreDistinct` | src/contoso_foundry/boundary.py:748-756 | no two declarations share a subject, whatever their names |
| `Inventory.AdmissibleMeans` | src/contoso_foundry/boundary.py:787-836 | a count is admitted exactly when it is the expected one, none where none need be live, or, in a partial deployment, no more than the maximum |
| `Inventory.CleanIsReady` | src/contoso_foundry/boundary.py:787-836 | what is clean outside a deployment is clean during one |
| `Inventory.PartialDeploymentIsClean` | src/contoso_foundry/boundary.py:787-836 | during a deployment, where no declaration has more than its limit, taking any one resource away leaves a clean inventory clean |
| `Inventory.EmptyIsClean` | src/contoso_foundry/boundary.py:787-836 | an empty inventory is clean exactly when each declaration asks for none or requires none, or, during a deployment, allows none |
| `Inventory.CheckInventory` | src/contoso_foundry/boundary.py:748-836 | each dictionary names exactly the offenders, with what they matched; both are empty exactly when the inventory is clean |
| `Inventory.MatchesCountedTwice` | src/contoso_foundry/boundary.py:773-786 | counting matches by declaration and by resource gives the same number |
| `Inventory.CleanInventoryAddsUp` | src/contoso_foundry/boundary.py:787-836 | in a clean inventory the live resources number the sum of the declarations' match counts |
| `Inventory.StrictInventoryIsThePlan` | src/contoso_foundry/boundary.py:806-822 | in strict mode the live resources number the expected counts, where an optional declaration with nothing live counts zero |
| `Inventory.CleanInventoryIsBounded` | src/contoso_foundry/boundary.py:789-805 | in either mode the live resources are at most the sum of the larger of deployment maximum and expected count |
| `Experiments.LoadDataset` | agents/travel/src/contoso_travel_agent/experiments.py:72-98 | accepts exactly the datasets of one to six distinctly labelled usable cases |
| `Evaluations.DatasetMeans` | agents/travel/src/contoso_travel_agent/experiments.py:72-98 | one to six cases of different simple labels, at most twelve turns in all, each answerable: exactly those load |
| `Experiments.KeyUndone` | agents/travel/src/contoso_travel_agent/release.py:53-55 | `rsplit` undoes a sample key even when the case ID contains the marker |
| `Experiments.KeysInjective` | agents/travel/src/contoso_travel_agent/experiments.py:347-348 | sample keys are injective in case and repetition |
| `Experiments.Collect` | agents/travel/src/contoso_travel_agent/experiments.py:299-354 | each side gets its own samples in dataset order, whichever side goes first |
| `Experiments.CollectedKeysAreDistinct` | agents/travel/src/contoso_travel_agent/experiments.py:299-354 | no two samples of a side share a key |
| `Experiments.ReadItems` | agents/travel/src/contoso_travel_agent/experiments.py:493-512 | the paging loop on any stream of pages: bounded, every page read up to the last, or refused |
| `Experiments.Outcomes` | agents/travel/src/contoso_travel_agent/experiments.py:394-430 | accepts exactly the runs whose counts hold, whose items pair with samples and whose grades are well formed and consistent |
| `Evaluations.RunIsAcceptedExactly` | agents/travel/src/contoso_travel_agent/experiments.py:394-430 | for samples of distinct keys: accepted exactly when the items answer each sample once, each is judged by the three criteria without a contradicting status, and the counts are the items' own; the results carry the items' grades |
| `CandidatePass.ItemsAreTheSamples` | agents/travel/src/contoso_travel_agent/experiments.py:397-411 | accepted items and submitted samples are in bijection |
| `CandidatePass.PassedEverywhere` | agents/travel/src/contoso_travel_agent/release.py:56-60 | the gate passes only if every candidate result passes every criterion |
| `CandidatePass.PassingCoversSixCases` | agents/travel/src/contoso_travel_agent/release.py:49-55 | a passing comparison covers six cases: repeating a smaller dataset is not enough |
| `CandidatePass.PassingMeans` | agents/travel/src/contoso_travel_agent/release.py:49-61 | a comparison that passes the gate passed in every case, and the version let through is the candidate's |
| `CandidatePass.PassesExactly` | agents/travel/src/contoso_travel_agent/release.py:49-61 | both ways: an experiment that ran to the end passes exactly with six cases, at least one repetition, exact versions and every candidate result passed in every criterion |
| `CandidatePass.OneRepetitionIsEnough` | agents/travel/src/contoso_travel_agent/release.py:49-61 | in particular six cases once each, the default |
| `CandidatePass.GateMeans` | agents/travel/src/contoso_travel_agent/release.py:49-61 | what the gate asks of any summary, and that it lets through that summary's version |
| `CandidatePass.SameKeysMeans` | agents/travel/src/contoso_travel_agent/experiments.py:571-572 | the sides must have the same keys, in any order |
| `CandidatePass.VersionMeans` | agents/travel/src/contoso_travel_agent/experiments.py:65-69 | a version is one to ten decimal digits, not all zero |
| `Release.Project.PinAgentVersion` | agents/travel/src/contoso_travel_agent/operations.py:262-291 | refuses when the endpoint changed, otherwise changes the version selector only |
| `Release.Project.Apply` | agents/travel/src/contoso_travel_agent/release.py:185-216 | the command's steps in order do what the protocol does; a failed governance check leaves a receipt and an unchanged route |
| `Release.RunKeepsSound` | agents/travel/src/contoso_travel_agent/release.py:156-211 | every interleaved run keeps the invariant relating route, receipts and processes |
| `Release.RouteIsAlwaysAccepted` | agents/travel/src/contoso_travel_agent/release.py:156-211 | over every run with crashes anywhere, the route is the initial one or a version that, as the candidate of some experiment in the run, passed every criterion of all six cases in every repetition; the contract never changes |
| `Release.RollbackRestoresTheReceipt` | agents/travel/src/contoso_travel_agent/release.py:171-211 | whatever happened in between, a rollback that changes the route puts back the whole endpoint of its receipt |
| `Release.PromoteThenRollback` | agents/travel/src/contoso_travel_agent/release.py:156-211 | a promotion then a rollback with its own receipt leaves the endpoint as it was |
| `Release.ReceiptIsHonouredIff` | agents/travel/src/contoso_travel_agent/release.py:171-211 | in every reachable world a receipt is honoured exactly when the route is its target and its recorded bundle is unchanged; it then restores its endpoint, and otherwise nothing changes |
| `Release.UnusedReceiptIsHonoured` | agents/travel/src/contoso_travel_agent/release.py:171-211 | so a receipt whose promotion never changed the route is honoured once another promotion reaches the same target |
| `Release.UnusedReceiptIsRefused` | agents/travel/src/contoso_travel_agent/release.py:185-187 | while the route is not a receipt's target, rolling back with it is refused |
| `Release.CheckHoldsUntilUpdate` | agents/travel/src/contoso_travel_agent/operations.py:272-287 | the check made before the update still holds at the update exactly when nobody else changed the route in between, or the last who did installed the same version |
| `Release.DecisionsCanBeOverwritten` | agents/travel/src/contoso_travel_agent/operations.py:272-287 | two operators who checked the same route both go through, and the second overwrites the first |
| `Traffic.YearLength` | agents/travel/src/contoso_travel_agent/traffic.py:96-113 | the Gregorian day count advances by 365 or 366 |
| `Traffic.NthWeekdayIsTheNth` | agents/travel/src/contoso_travel_agent/traffic.py:104-107 | the right weekday, the n-th from the first of the month; only a fifth can leave the month |
| `Traffic.LastWeekdayIsTheLast` | agents/travel/src/contoso_travel_agent/traffic.py:101-103 | the right weekday, in the month, and none later in it |
| `Traffic.ObservedFallsOnAWorkingDay` | agents/travel/src/contoso_travel_agent/traffic.py:108-113 | an observed rule always has a Monday-to-Friday date next to the holiday, which is kept |
| `Traffic.RaisesExactlyOnLeapDays` | agents/travel/src/contoso_travel_agent/traffic.py:81-98 | a rule that loads raises in a year exactly when it is fixed on February 29 and the year is common |
| `Traffic.LeapDayRuleLoadsAndRaises` | agents/travel/src/contoso_travel_agent/traffic.py:81-98 | such a rule does load, and raises in one of any three consecutive years |
| `Traffic.ThreeYearsDecide` | agents/travel/src/contoso_travel_agent/traffic.py:175-181 | a date of year y can only come from the rule's dates of the years y-1, y and y+1 |
| `Traffic.IsHoliday` | agents/travel/src/contoso_travel_agent/traffic.py:175-181 | the loops over rules and years, ending at the first match or the first date that raises |
| `Traffic.TestedMeans` | agents/travel/src/contoso_travel_agent/traffic.py:175-181 | testing three years answers for all of them; the test raises only if some rule is fixed on February 29, and then never finds a day to be no holiday |
| `Traffic.LeapDayFirstRaises` | agents/travel/src/contoso_travel_agent/traffic.py:175-181 | if the first rule is fixed on February 29, every test raises |
| `Schedule.ScenarioFor` | agents/travel/src/contoso_travel_agent/traffic.py:183-204 | disabled wins over forced, forced over the calendar; otherwise the slot lists and the plan's own holidays decide, and the only failure is a calendar with a rule fixed on February 29 |
| `Schedule.WorkingDayCap` | agents/travel/src/contoso_travel_agent/traffic.py:197-200 | on weekdays that are no holidays at most two conversations an hour, within business hours |
| `Schedule.WorkingDayRuns` | agents/travel/src/contoso_travel_agent/traffic.py:197-200 | and it does run: in each business hour of such a day at exactly the plan's two quarters, unless a rule is fixed on February 29 |
| `Schedule.HolidayRuns` | agents/travel/src/contoso_travel_agent/traffic.py:192-194 | on a holiday, exactly at its slots |
| `Schedule.QuietCapIff` | agents/travel/src/contoso_travel_agent/traffic.py:129-196 | for every plan that loads: the same cap is kept on every weekend day that is no holiday exactly when the weekend slots have at most two in each hour or a rule is fixed on February 29, and on every holiday exactly when the holiday slots do or such a rule comes first |
| `Schedule.FreeSaturday` | agents/travel/src/contoso_travel_agent/traffic.py:155-160 | eleven rules cannot name every Saturday: some Saturday is a holiday in no rule and no year |
| `Schedule.WeekendCapIsNotChecked` | agents/travel/src/contoso_travel_agent/traffic.py:129-173 | a plan with the eleven federal holidays that loads, and runs three conversations in one hour of a Saturday that is no holiday |

## Left out

- Storage: SQLite's type affinity, collations other than binary, and the text of SQL are not modelled; a cell is null, a number or text, and a query is its relational meaning. The primary keys the schema declares are a premise of the run theorem (`WellKeyed`).
- Error messages: an error is its kind and the values it names, not its wording.
- `describe`: its answer is configuration, not data, so it is a parameter of the tool configuration.
- The splitting of a place name into words and the reading of a date are functions supplied to the model, the same for every database.
- Lists of values in a filter arrive as the text the repository makes of them.
- Generator fields that no check or read shape looks at: telephone numbers, e-mail addresses, customer and supplier rows, fares' prices, the dates inside bookings.
- Random.Rng.Uniform: a draw may be any real in [0, 1), drawn independently of the integers; the bit stream of the generator's library is not modelled.
- The remaining dataset checks (null columns, identifier shapes, date shapes, locality, scope coverage) would add easy members; scope coverage is not a theorem of a random generator.
- Regions: reading the region list from the command line tool, great-circle distance (an opaque number) and the thread pool that probes regions in parallel.
- CostTiers: parsing a unit of measure is a function from its text to a positive number or nothing; floating-point rounding is not modelled.
- CostReport: the report's warnings, one for each unpublished meter, and its descriptive fields are omitted; only identity, list and cost of a line are kept.
- PriceRetry: the on-disk snapshot is written elsewhere; a request's timeout is taken as a bound on the whole request, as its caller intends.
- Reports, exports and the published table's own ordering.
- Inventory: reading live resources, relative scopes, role assignments and identities are not part of this model; live scopes are given.
- Experiments: model conversations, token usage, prices and the secret scan of a summary; polling a run until it finishes; digests are taken as the values they digest.
- Release: receipts are those the command itself wrote; the live reads of a tool bundle are an opaque value for each version; the check of a candidate against the checked-in definition and the closing test conversation only refuse, and are covered by a process stopping anywhere.
- Traffic: time zones; years are unbounded, where the library's dates end at 9999.
- Agent runtimes, HTTP handlers, telemetry, redaction patterns and command-line parsing.
