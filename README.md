# Lot planner scheduling engine, modelled in Dafny

This project models the scheduling engine of the lot planner in `app.py`.
The engine assigns each pending lot of ham or shoulder an entry date into
the salting room (ENTRADA_SAL) and an exit date (SALIDA_SAL). A lot stays in
the stabilisation chamber from its reception day (DIA) up to the day before
it enters. Three per-date ledgers are tracked: entry units, exit units and
chamber units. Each has per-date overrides, and entry and exit have two
capacity tiers ("attempts").

The engine works in three phases:

1. It seeds the ledgers from the rows that are already planned.
2. It runs the common-entry group rules. Every pending lot of a group gets
   the same entry date, or none of them is placed.
3. It places every other pending lot greedily, in (DIA, PRODUCTO) order. The
   chosen date is the one that least disturbs the product class and the
   nitrification mix of that day. A lot that fits nowhere gets a table of
   suggestions saying which capacities would have to be raised.

The integer part of the daily stabilisation report is also modelled.

Modules follow the engine's structure:

- `Calendar`: business days, next and previous business day.
- `Capacity`: the engine's settings and the capacity getters.
- `Ledger`: add-on-a-day, add-over-a-range, the range check and the deficit
  list.
- `Rows`: the table row and the aggregates the ledgers are made of; seeding.
- `ExitRule`: the exit-date rule.
- `Classify`: `_norm_tipo` and `_norm_nitrif`.
- `Profiles`: the per-date class/nitrification counters and the costs.
- `Placement`: the candidate loop, the score and the commit of one lot.
- `Groups`: `_aplicar_entrada_comun_para_grupo`.
- `Consistency`: the ledgers always equal the aggregates of the table.
- `Suggestions`: the suggestion rows, the best twenty per lot, and the final
  table order.
- `Planning`: the group phase, the greedy loop and `planificar_filas_na`.
- `Report`: the integer columns of `calcular_estabilizacion_diaria`.
- `Sorting`: the stable sort used for every library sort.
- `Options`: an option type.

Modelling choices:

- Dates are proleptic ordinals, as `date.toordinal()` numbers them, so
  `weekday(d) = (d + 6) % 7`. Holidays are a finite `set<int>`.
- The ledgers (`carga_entrada`, `carga_salida`, `estab_stock`) are
  `map<int, int>` values read as `dict.get(d, 0)`.
- The source keeps its state in the locals of one function, updated by nested
  closures. The model threads that state through methods: each method takes
  the ledgers, the table and the profile, and returns the new ones. Its
  `ensures` states the whole new state. The group phase and the greedy pass
  return ghost traces of their states, with each rule application and each visit
  tied to the next state by its step contract.
- A planning invariant (`Planning.Invariant`) ties the whole state together:
  - the ledgers equal the aggregates of the table, by `Consistency.Consistent`;
  - the rows planned in the input are kept;
  - every failed row is marked and still pending;
  - every suggestion is about a failed row.

  Every step of the engine is proved to keep this invariant.

The seeded exit ledger also counts rows that carry a SALIDA_SAL but no
ENTRADA_SAL. Such a row is still pending, so the planner places it again and
adds its units a second time. The old load is never taken back off. The model
keeps that load as the `StaleExit` aggregate of the input table, which is
what the code does.

## Model

| member | source | states |
|---|---|---|
| Calendar.Weekday | app.py:65-67 | the weekday of a date is in 0..6, Monday 0 |
| Calendar.NextBusinessDay | app.py:69-73 | `siguiente_habil(f)` is a business day strictly after `f` with no business day strictly in between |
| Calendar.PrevBusinessDay | app.py:75-79 | `anterior_habil(f)` is a business day strictly before `f` with no business day strictly in between |
| Calendar.FindNextBusinessDay | app.py:69-73 | the stepping loop returns a business day after `f` with none in between |
| Calendar.FindPrevBusinessDay | app.py:75-79 | the backward stepping loop returns a business day before `f` with none in between |
| Calendar.NextBusinessDayUnique | app.py:69-73 | those two properties determine the next business day uniquely |
| Calendar.PrevOfNext | app.py:69-79 | from a business day, stepping forwards then backwards returns to it |
| Calendar.EarliestEntry | app.py:488 | `entrada_ini` is the reception day if it is a business day, otherwise the first business day after it |
| Capacity.TierCap | app.py:200-218 | a tier's capacity is the date's non-null override for that tier, otherwise the global value of the tier |
| Capacity.StabCap | app.py:221-224 | the chamber capacity is the date's non-null override, otherwise the global one |
| Capacity.MaxStorage | app.py:484 | the per-product maximum storage days, else the global maximum |
| Capacity.OverrideIsLocal | app.py:200-218 | changing the override of one date leaves every other date's capacity unchanged, at both tiers |
| Capacity.EmptyOverrideIsNoOverride | app.py:200-218 | an override row with both cells empty behaves as no override |
| Ledger.AddAt | app.py:85-87 | adding units on one date moves only that date, by those units |
| Ledger.AddRange | app.py:81-87 | adding over `lo..hi` moves exactly the days of the range, each by the units |
| Ledger.AddEmptyRange | app.py:81-87 | an empty range leaves the ledger unchanged |
| Ledger.SumInRange | app.py:81-87 | the day-by-day loop computes `AddRange` |
| Ledger.CheckStabRange | app.py:227-236 | `cabe_en_estab_rango` is true exactly when every day of the range takes the units within its capacity; it is true for an empty range |
| Ledger.DeficitListSound | app.py:239-250 | every entry of `deficits_estab` is a day of the range with its positive shortfall, and the days ascend |
| Ledger.DeficitListComplete | app.py:239-250 | every day of the range with a positive shortfall is listed |
| Ledger.DeficitListEmpty | app.py:227-250 | the deficit list is empty exactly when the range check passes |
| Ledger.StabDeficits | app.py:239-250 | the loop builds the deficit list |
| Ledger.MaxAmount | app.py:581 | the largest shortfall of the list, 0 when the list is empty |
| Rows.SeedEntryLedger | app.py:187 | `carga_entrada` holds, per date, the units of the rows entering on it |
| Rows.SeedExitLedger | app.py:188 | `carga_salida` holds, per date, the units of every row carrying that SALIDA_SAL, placed or not |
| Rows.SeedStabLedger | app.py:191-197 | `estab_stock` holds, per date, the units of planned rows with DIA <= date < ENTRADA_SAL |
| Rows.LoadAtUpdate | app.py:187-197 | replacing one row changes each aggregate by exactly that row's difference |
| ExitRule.WeekendShift | app.py:498-503 | with weekend adjustment the shifted exit falls on Monday to Friday; otherwise it is unchanged |
| ExitRule.ExitDate | app.py:498-515 | with both adjustments on the exit is a business day; a business day at entry + dwell is kept; the exit is never before a business-day entry |
| ExitRule.MidweekHolidayGoesToLighterNeighbour | app.py:508-513 | a Tuesday to Thursday holiday moves to the neighbouring business day with the lower combined exit load, and to the earlier one on equal load |
| ExitRule.EdgeOfWeekHolidays | app.py:504-515 | a Monday holiday moves to the next business day, a Friday holiday to the previous one |
| ExitRule.ExitDateReadsCombinedLoad | app.py:329-334 | the rule reads the exit ledger and the pending additions only through their sum |
| ExitRule.PendingOrCommittedAlike | app.py:332-333 | setting units aside in `add_salida` or committing them to `carga_salida` gives the same later exit dates |
| ExitRule.NoAdjustment | app.py:319-325 | with both adjustments off the exit is entry plus the optimal dwell |
| Classify.StripDoesNotChangeKind | app.py:454-460 | the class depends only on the upper-cased text: "IBER" anywhere gives Ibérico, else "BLAN" anywhere gives Blanco, else Other |
| Classify.StripKeepsOccurrence | app.py:455-458 | stripping surrounding whitespace neither creates nor removes an occurrence of "IBER" or "BLAN" |
| Classify.OccursInTrimmed | app.py:455-458 | a pattern without whitespace occurs in the trimmed text exactly when it occurs in the text |
| Classify.NormKindIgnoresCase | app.py:455 | upper-casing the input leaves the class unchanged |
| Classify.Upper | app.py:455 | `upper()` maps each character and keeps the length |
| Classify.NitrifRoundTrip | app.py:461-465 | a text cell holding the decimal form of `n` normalises to `n` |
| Profiles.RecordLot | app.py:555-559 | recording a lot on `d` adds its class, and its nitrification when readable, to `d`'s counters and leaves every other date alone |
| Profiles.SeedProfile | app.py:426-452 | the seeded profile counts exactly the rows holding an ENTRADA_SAL, by date, class and readable nitrification |
| Profiles.KindCountPositive | app.py:527 | a class is counted on a date exactly when some lot of that class enters on it |
| Profiles.NitrifCountPositive | app.py:532 | a nitrification is counted on a date exactly when some lot entering on it has that readable value |
| Profiles.RecordKeepsDescription | app.py:555-559 | placing a pending row and recording it keeps the profile describing the table |
| Profiles.RecordAppended | app.py:444-452 | seeing one more row keeps the seeded table counting the rows seen |
| Profiles.KindCost | app.py:524-527 | `cost_tipo` is 0 or 1, and 0 exactly when the date's class counter is empty or holds the lot's class |
| Profiles.NitrifCost | app.py:529-532 | `cost_nitr` is 0 or 1, and 0 exactly when the date's nitrification counter is empty or holds the lot's readable value |
| Profiles.KindCostOfMarks | app.py:520-527 | read through the rows: the class cost is 0 exactly when no lot enters on the date or one of the same class does |
| Profiles.NitrifCostOfMarks | app.py:520-532 | read through the rows: the nitrification cost is 0 exactly when no readable nitrification enters on the date or the lot's own does |
| Placement.CheckFeasible | app.py:495-518 | the three filters, run in order, pass exactly when entry, every stabilisation day and the exit day take the lot at the tier |
| Placement.VisitDate | app.py:494-537 | one pass of the window loop offers the date when it is feasible and moves on to the next business day |
| Placement.CollectCandidates | app.py:491-537 | the candidates are every feasible date of the window, each once, in date order, each with its score and exit |
| Placement.ScoreOrderIsTotalPreorder | app.py:534-541 | the lexicographic score order is a total preorder |
| Placement.LowestIsUnique | app.py:534-541 | candidates have distinct dates, so the lowest score is attained once |
| Placement.Lowest | app.py:540-541 | sort-then-first picks a candidate whose score is no higher than any other |
| Placement.LowestBeatsEveryFeasibleDate | app.py:491-541 | the pick scores no higher than any feasible date of the window at that tier |
| Placement.ChooseEntry | app.py:491-562 | the lowest-scored feasible date of attempt 1, else of attempt 2; none exactly when no date of the window is feasible at either tier |
| Placement.Placed | app.py:543-547 | the placed row holds the entry, the exit, DIAS_SAL = exit - entry, DIAS_ALMACENADOS = entry - DIA and LOTE_NO_ENCAJA "No"; nothing else changes |
| Placement.CommitLot | app.py:549-553 | the commit adds the units on the entry day, on the exit day and on each day DIA .. entry - 1 |
| Placement.CommittedPointwise | app.py:549-553 | only the entry day, the exit day and the stabilisation days move, each by the units |
| Placement.CommitRespectsCapacity | app.py:488-518 | a lot committed on a feasible date keeps its entry day, exit day and stabilisation days within the tier's capacities |
| Groups.Members | app.py:262-265 | the pending members are exactly the rows of the codes without ENTRADA_SAL, in table order |
| Groups.PreferredEntry | app.py:267-275 | the preferred date is the earliest ENTRADA_SAL among the group's placed rows, none when there are none |
| Groups.CommonStart | app.py:277-287 | `inicio_comun` is the latest earliest-entry of the members |
| Groups.CommonLimit | app.py:277-288 | `limite_comun` is the earliest limit of the members |
| Groups.CommonWindowIsIntersection | app.py:277-288 | a business day is in the common window exactly when it is in every member's window |
| Groups.StepStab | app.py:309-313 | one member's stabilisation days pass exactly when each takes it, and then each is raised by its units |
| Groups.SimulateStab | app.py:304-313 | the `sim_stock` simulation passes exactly when each member's days take it on top of the members before it |
| Groups.StabSimFailed | app.py:311-312 | one member whose days do not take it fails the whole group |
| Groups.SimStabStep | app.py:305-313 | the simulation over one more member adds its range and checks it against the members before it |
| Groups.SimulateExits | app.py:315-337 | the `add_salida` loop computes each member's exit against the ledger plus what the earlier members set aside |
| Groups.CheckExits | app.py:339-343 | every exit date passes exactly when it takes what was set aside on it |
| Groups.GroupFeasible | app.py:295-343 | `_es_factible_entrada_comun` is the conjunction of the entry total, the stabilisation simulation and the exit check |
| Groups.GroupCandidates | app.py:347-358 | the candidates are the preferred date when it is in range, then the business days of the range in ascending order, without repeats |
| Groups.FirstFeasible | app.py:360-363 | the first candidate that fits, with none before it fitting; none when none fits |
| Groups.FirstFittingCandidate | app.py:345-365 | the first fitting candidate is the preferred date when it fits, otherwise the earliest fitting business day of the window |
| Groups.ChooseGroupEntry | app.py:345-365 | attempt 1 before attempt 2; none exactly when no candidate fits at either tier |
| Groups.SimExitAt | app.py:315-337 | member `k`'s simulated exit is the rule against the ledger plus the earlier members' additions |
| Groups.CommitExitAgrees | app.py:374-399 | the exit the commit gives member `k`, against the ledger updated by the earlier members, is the simulated one |
| Groups.ExitAgainstPending | app.py:332-333 | an exit against a ledger holding the additions equals the exit against the ledger plus the additions |
| Groups.CommitGroup | app.py:367-401 | every member is placed on the date with its simulated exit; the entry ledger moves by the group's total, the exit ledger by `add_salida`, the chamber as `sim_stock` |
| Groups.SimStabWithinCapacity | app.py:304-313 | a passing simulation keeps every touched day within capacity and leaves other days as they were |
| Groups.GroupCommitRespectsCapacity | app.py:300-401 | a committed group keeps its entry day, every member's exit day and every touched stabilisation day within capacity |
| Groups.MarkFailed | app.py:405-407 | `marcar_si_falla` marks exactly the members "Sí" |
| Groups.EmptyRangeHasNoCandidate | app.py:289-293 | an empty common window admits no candidate date |
| Groups.ApplyGroup | app.py:257-408 | all pending members on one common date that fits, chosen as the rule says, with the ledgers moved by the group's share; or no change to the ledgers, and members marked only when asked |
| Consistency.RelabelKeepsConsistent | app.py:187-197 | changing fields the ledgers do not read keeps the ledgers those of the table |
| Consistency.CommitLotKeepsConsistent | app.py:543-553 | placing a pending row and committing it keeps the ledgers equal to the aggregates of the table |
| Consistency.GroupEntryLoad | app.py:398 | the placed group adds its total units on the common date to the entry aggregate |
| Consistency.GroupExitLoad | app.py:337-399 | with the simulated exits, the placed group adds to the exit aggregate exactly what `add_salida` holds |
| Consistency.GroupStabLoad | app.py:309-313 | the placed group occupies the chamber exactly as `sim_stock` did |
| Consistency.LoadAtSplit | app.py:393-401 | changing only the group's rows adds their new contribution to each aggregate |
| Consistency.GroupCommitKeepsConsistent | app.py:367-401 | a committed group keeps the ledgers equal to the aggregates of the table |
| Suggestions.Max3 | app.py:632 | MAX_DEFICIT is one of the three deficits and no smaller than any |
| Suggestions.StabDeficitIsWorstDay | app.py:580-581 | DEFICIT_ESTAB_MAX is non-negative, the worst shortfall of the range, and 0 exactly when the range fits |
| Suggestions.StabDaysAreFirstDeficits | app.py:615-619 | the listed chamber days are the first (at most three) deficient days, ascending, with their shortfalls; none exactly when the range fits |
| Suggestions.MakeSuggestion | app.py:576-635 | the row holds both deficits as `max(0, load + units - cap)`, the chamber deficit, their max and their sum |
| Suggestions.NoDeficitIffFeasible | app.py:578-633 | MAX_DEFICIT is 0 exactly when the date is feasible at the tier, and TOTAL_DEFICIT is no smaller than it |
| Suggestions.NoAdviceIffFeasible | app.py:606-634 | no recommendation exactly when the date was feasible; each line names a short capacity and the exact amount it lacks |
| Suggestions.SuggestionsForLot | app.py:568-637 | one suggestion for every business day of the window at both tiers, in date order, tier 1 before tier 2 |
| Suggestions.OrdersAreKeyOrders | app.py:640-642 | the per-lot key and the table key are total preorders |
| Suggestions.BestForLotKeepsTheBest | app.py:639-643 | at most twenty kept, in key order, none worse than any dropped, ties kept in generation order |
| Suggestions.SuggestionTableIsSorted | app.py:657-661 | the final table holds the same suggestions, sorted by the table key |
| Suggestions.NoRoomMeansDeficits | app.py:564-635 | a lot that fits nowhere gets suggestions that each show a deficit and a recommendation |
| Report.FamilyOf | app.py:118-121 | Paleta exactly when PRODUCTO starts with "P", Jamón exactly when it starts with "J" |
| Report.OccupancyPositive | app.py:108-121 | a day has positive chamber units exactly when some row occupies it; no family count is negative |
| Report.FamiliesPartition | app.py:115-121 | paleta, jamón and the rest add up to the total |
| Report.OccupancyIsStabLoad | app.py:108-121 | with no negative units, the report's total is the chamber load the planner tracks |
| Report.OccupyRange | app.py:115-121 | one lot adds its units to the total on each chamber day, and to its family's counter |
| Report.DailyOccupancy | app.py:102-121 | the counters hold the occupancy of the rows, skipping rows without entry, without units, or entering on their DIA |
| Report.ReportCap | app.py:143-151 | CAPACIDAD is the date's override, else the global capacity |
| Report.ReportCapIsStabCap | app.py:143-151 | the report and the planner read the same capacity |
| Report.Excess | app.py:153 | EXCESO is non-negative, 0 exactly when the units fit, otherwise the overflow |
| Report.Ascending | app.py:129-135 | `sort_index` lists the days in strictly ascending order |
| Report.StabilisationReport | app.py:89-157 | one line per occupied day, in ascending order, each with the day's total, family counts, capacity and excess |
| Sorting.SortBySorted | app.py:475 | the sort result is ordered by the key |
| Sorting.SortByStable | app.py:475 | elements with equal keys keep their input order |
| Sorting.StringLeTotal | app.py:475 | string order is total |
| Sorting.StringLeTransitive | app.py:475 | string order is transitive |
| Planning.PendingOrderIsKeyOrder | app.py:475 | (DIA, PRODUCTO) is a total preorder |
| Planning.PendingOrderVisitsEachPendingRowOnce | app.py:473-477 | the greedy order visits every pending row exactly once and no other row |
| Planning.PendingOrderIsStableSort | app.py:473-475 | the greedy order is a stable sort of the pending rows by (DIA, PRODUCTO) |
| Planning.WithDeviation | app.py:645-647 | DIFERENCIA_DIAS_SAL = DIAS_SAL - DIAS_SAL_OPTIMOS, empty where DIAS_SAL is |
| Planning.GroupRule | app.py:257-408 | the rule's full outcome (`Groups.GroupOutcome`): on success the date the rule takes (preferred date, else the earliest fitting business day, attempt 1 before attempt 2) with every pending member placed on it; `None` only when no candidate fits at either tier, with nothing changed; the planning invariant is kept |
| Planning.RunGroups | app.py:410-422 | a ghost trace of the phase (`Planning.GroupPhase`): the rules applied in the fixed order of `Planning.GroupRules`, each linked to the next state by its `Groups.GroupOutcome`; the two halves of the pair run exactly when the pair found no date, from the state it left unchanged; the invariant is kept and only the groups' pending rows are placed |
| Planning.SingleGroups | app.py:412-414 | the three single-code rules in order, each recorded on the trace by its outcome |
| Planning.CommitMovesWithinCapacity | app.py:488-553 | a greedy commit moves only days it keeps within the tier's capacities |
| Planning.CommitKeepsInvariant | app.py:543-559 | committing a pending row keeps the planning invariant |
| Planning.FailureKeepsInvariant | app.py:565-643 | marking a row "Sí" and adding its suggestions keeps the invariant |
| Planning.CommitRow | app.py:539-562 | the committed table, ledgers and profile, with the invariant kept and every moved day within capacity |
| Planning.FailRow | app.py:564-643 | the row marked "Sí"; the lot's suggestions are one per date and tier of its window, in date order with tier 1 first (`Planning.LotSuggestions`), and the best twenty of them are appended |
| Planning.PlaceRow | app.py:477-643 | the best choice committed, or, when no date is feasible at either tier, the row marked with the ledgers unchanged and the best twenty of its suggestions, in proposal order, kept |
| Planning.Visit | app.py:477-643 | one visit is a `Planning.Step`: the row committed on a best choice against the ledgers and profile of its turn, or, only when no date fits at either tier, marked "Sí" with its best twenty suggestions appended |
| Planning.PlaceAll | app.py:473-643 | a ghost trace of the pass: visit `k` is a `Planning.Step` on row `PendingOrder(rows)[k]` from state `k` to state `k + 1`; each pending row ends placed on a best choice against the state of its turn, or marked "Sí" with no room at either tier (`Planning.VisitedAsDecided`); planned rows are untouched, the invariant holds and every moved ledger day is within capacity |
| Planning.PassOutcomes | app.py:477-566 | a visit sees its row as it came into the pass, and no later visit changes it |
| Planning.DeviationKeepsInvariant | app.py:645-647 | the deviation column keeps the invariant |
| Planning.Plan | app.py:170-663 | the run as a ghost trace: the seeded ledgers, the group phase (`Planning.GroupPhase`), the greedy pass from the state it left (each row placed on a best choice or marked "Sí" only with no room), the deviation column and the sorted table of the kept suggestions; planned input rows kept; every table line about an unplaced row |
| Planning.SuggestionsAboutFailedRows | app.py:657-661 | every line of the sorted table is about a row marked "Sí" |

## Left out

- The Streamlit page: widgets, session state and editors. They only supply the parameters, which are modelled as `Capacity.Settings`.
- Excel input and output, and the charts. They are I/O.
- The floating-point UTIL_% column of the report. Only the integer columns are modelled.
- pandas NaT/NA coercion. Dates and units are always present in a `Row`, and the null checks on DIA, ENTRADA_SAL and UNDS are their `Option` fields or are dropped. Rows without a DIA, UNDS or DIAS_SAL_OPTIMOS are not modelled.
- Column-presence checks (`"PRODUCTO" in df_corr.columns` and the like). Every column is taken to be present.
- `int(v)` on floats, and on texts with underscores or non-ASCII digits. `Classify.ParseInt` accepts an optional sign and ASCII digits after stripping ASCII whitespace. `str.strip()` and `upper()` are modelled on ASCII only.
- The recommendation text is not formatted into strings. It is modelled as a list of `Suggestions.Advice` items: resource, day, amount, tier.
- Report overrides: the report's override table is taken to hold only non-empty cells.
- The dead `if not es_habil(entrada)` branch of the suggestion loop. Every date that loop visits is already a business day.
- `marcar_si_falla = True`: `Groups.ApplyGroup` models it, but the planner never passes it, and neither does the source.
- The library sorts are modelled as one stable insertion sort. For the candidate sort this makes no difference, because scores are distinct (`Placement.LowestIsUnique`). Where pandas' default sort is not stable, equal keys are modelled in stable order.
- Planning.PlaceAll: entry and exit days stay within capacity is stated per tier for each commit (`Placement.CommitRespectsCapacity`). Across the whole pass it is stated only as within the larger of the two tiers, because a later commit may use the other tier on the same day.
- Suggestions.SuggestionTableIsSorted: LOTE is taken to be an integer, as it is when the column is numeric or absent (`row.get("LOTE", idx)` falls back to the row index). A LOTE column of text sorts lexicographically at app.py:657-661, so that "L10" comes before "L9"; the model does not cover that order.
