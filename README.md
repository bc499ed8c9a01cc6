# SleepAPI meal ranking and berry filter — a Dafny model

This project models the filtering and ranking engine of SleepAPI. SleepAPI ranks which pokemon are best at cooking in-game meals. The model has five parts:

- **Berry filter** (`berry_utils.dfy`, module `BerryUtils`).
  - An island selection maps to the berries obtainable on the selected islands.
  - With no island selected, it maps to the full berry catalog.
  - With several islands, it is the concatenation of their lists in island order: cyan, taupe, snowdrop, lapis.
  - The catalogs are abstract constants. Where a lemma needs every berry to belong to exactly one island, it says so with `CatalogPartitioned()`.
- **Meal-name filter** (`meal_filter.dfy`, module `MealFilter`).
  - The meal flags form an ordered pipeline of narrowing steps over the abstract meal catalog.
  - First comes the unlock tier: `unlocked` drops starter meals and meals needing an unlockable ingredient, and overrides `advanced`; `advanced` alone drops starter meals.
  - Then come `lategame` and the category toggles.
  - Every step keeps catalog order.
- **Ranking order** (`rank_order.dfy`, module `RankOrder`).
  - Entries are ordered by score descending, then by pokemon name ascending, compared lexicographically by character code.
  - `Rank` is an insertion sort. It is proved to give a permutation in that order.
  - A ranking with distinct names is the only ranked order of its entries.
- **Grouped reduction** (`reduce_by_key.dfy`, module `ReduceByKey`).
  - `Reduce` makes one pass over the rows and updates a `map` keyed by pokemon. It also records the keys in first-seen order.
  - It is proved against the fold `Reduced` and the key list `FirstSeen`.
  - The two ranking engines use this same utility with different combining functions.
- **Meal ranking service** (`meal_ranking.dfy`, module `MealRanking`).
  - There are two combination sources, standard and level-capped (the level-30 variant). The class `Sources` models them: each answers every query of a kind with fixed rows, and the class keeps a log of the queries issued (`recorded`).
  - `GetMealGeneralistRanking` queries the standard source, and the level-capped source too under `limit30`. It keeps one row per pokemon (a later row replaces the kept one only with a strictly higher average) and ranks the result.
  - `GetMealFocusedRanking` asks each consulted source for its top `nrOfMeals` rows (the default when omitted). It sums each pokemon's rows (totals added, meals and ingredient lists concatenated with repeats kept) and ranks the result.
  - `GetMealDataAndRankingFor` fails with `NotFound` for a meal outside the catalog, before any query. Otherwise it reads the single source `limit30` selects and returns its answer unchanged.

The repository's implementations of these operations (`berry-utils.ts`, `meal-ranking.ts`) are not part of this model. The behaviour modelled is what their tests assert. Where the tests are silent, the following are this model's own choices, which no visible assertion fixes:

- under `limit30`, both sources are queried for the two rankings and their rows merged, standard rows first (the tests only record the calls);
- the generalist tie rule: a later row replaces the kept one only with a strictly higher average;
- the focused merge sums totals and concatenates meals and ingredient lists, repeats kept;
- the `NotFound` failure for a meal outside the catalog, before any query;
- the sort order: score descending, then pokemon name by character code;
- `lategame` keeps only lategame meals;
- the category toggles keep only meals of the selected categories (no toggle set: no restriction).

The focused-ranking test at meal-ranking.test.ts:250-266 is titled for `limit30` but passes `limit30: false`. The model covers both values.

## Model

| member | source | states |
|---|---|---|
| BerryUtils.BerriesForFilter | backend/src/utils/berry-utils/berry-utils.test.ts:6-64 | With no island selected, the result is the full catalog. Otherwise it holds exactly the berries of the selected islands; `SelectionInIslandOrder` gives the exact sequence. |
| BerryUtils.BerriesForIsland | backend/src/utils/berry-utils/berry-utils.test.ts:68-86 | No island gives the full catalog. An island gives what the filter selecting only that island gives. |
| BerryUtils.SelectedIslands | backend/src/utils/berry-utils/berry-utils.test.ts:56-64 | Lists exactly the selected islands, in island enumeration order. |
| BerryUtils.Concatenated | backend/src/utils/berry-utils/berry-utils.test.ts:56-64 | Holds exactly the berries of the listed islands, and its length is the sum of their list lengths. The exact sequence is given by `ConcatenatedAppend`. |
| BerryUtils.Only | backend/src/utils/berry-utils/berry-utils.test.ts:16-54 | The filter selects the given island and no other. |
| BerryUtils.IslandIndex | backend/src/utils/berry-utils/berry-utils.test.ts:56-64 | Each island has a position in the enumeration order. |
| BerryUtils.NoSelectionIsAllBerries | backend/src/utils/berry-utils/berry-utils.test.ts:6-14 | The all-false filter, and the call with no island, both give exactly the full catalog. |
| BerryUtils.SingleIslandSelection | backend/src/utils/berry-utils/berry-utils.test.ts:16-54 | Selecting one island gives exactly that island's list, the same list as asking for that island directly. |
| BerryUtils.TwoIslandSelection | backend/src/utils/berry-utils/berry-utils.test.ts:56-64 | Selecting two islands gives the earlier island's list followed by the later one's. |
| BerryUtils.ConcatenatedAppend | backend/src/utils/berry-utils/berry-utils.test.ts:56-64 | The lists of two runs of islands joined are the lists of the joined run. |
| BerryUtils.SelectionInIslandOrder | backend/src/utils/berry-utils/berry-utils.test.ts:16-64 | Any non-empty selection gives exactly the selected islands' lists, each whole with its repeats, joined in the order cyan, taupe, snowdrop, lapis. |
| BerryUtils.CyanAndTaupe | backend/src/utils/berry-utils/berry-utils.test.ts:56-64 | Cyan and taupe together give the cyan berries followed by the taupe berries. |
| BerryUtils.NoDuplicatesAsMultiset | backend/src/utils/berry-utils/berry-utils.test.ts:56-64 | A list has no repeated berry iff every berry occurs at most once in its multiset. |
| BerryUtils.NoDuplicatesOfMultiset | backend/src/utils/berry-utils/berry-utils.test.ts:56-64 | Being free of repeats carries over to any reordering. |
| BerryUtils.NoDuplicatesOfPart | backend/src/utils/berry-utils/berry-utils.test.ts:56-64 | Both halves of a list without repeats are without repeats, and they share no berry. |
| BerryUtils.NoDuplicatesOfJoin | backend/src/utils/berry-utils/berry-utils.test.ts:56-64 | Two lists without repeats that share no berry join into a list without repeats. |
| BerryUtils.IslandsDisjoint | backend/src/utils/berry-utils/berry-utils.test.ts:16-64 | In a partitioned catalog, no island's list repeats a berry, and no berry is on two islands. |
| BerryUtils.ConcatenatedNoDuplicates | backend/src/utils/berry-utils/berry-utils.test.ts:56-64 | Concatenating distinct islands of a partitioned catalog repeats no berry. |
| BerryUtils.FilterHasNoDuplicates | backend/src/utils/berry-utils/berry-utils.test.ts:6-64 | For a partitioned catalog, no filter result repeats a berry. |
| BerryUtils.AllIslandsCoverCatalog | backend/src/utils/berry-utils/berry-utils.test.ts:6-64 | Selecting every island gives the full catalog up to order, the same berries as selecting none. |
| MealFilter.Keep | backend/src/services/routing-service/meal-ranking.test.ts:31-53 | A step never lengthens the list. What it keeps, and in which order, is given by `KeepCounts` and `KeepAppend`. |
| MealFilter.KeepCounts | backend/src/services/routing-service/meal-ranking.test.ts:31-53 | A step keeps every copy of a meal that satisfies it and drops every copy of every other meal. |
| MealFilter.KeepAppend | backend/src/services/routing-service/meal-ranking.test.ts:19-53 | Filtering a joined list is filtering each part and joining the results, so a step keeps input order. |
| MealFilter.TierCriteria | backend/src/services/routing-service/meal-ranking.test.ts:31-71 | The starter step runs iff `advanced` or `unlocked`; the unlockable-ingredient step runs iff `unlocked`. |
| MealFilter.PipelineSteps | backend/src/services/routing-service/meal-ranking.test.ts:19-71 | The pipeline runs the starter step iff `advanced` or `unlocked`, the unlockable step iff `unlocked`, the lategame step iff `lategame`, and one category step with the filter's toggles iff any toggle is set. |
| MealFilter.KeepAll | backend/src/services/routing-service/meal-ranking.test.ts:19-53 | A meal survives the pipeline iff it is in the input and satisfies every step. |
| MealFilter.KeepAllAppend | backend/src/services/routing-service/meal-ranking.test.ts:19-53 | The pipeline over a joined list is the pipeline over each part, joined, so the result keeps catalog order. |
| MealFilter.KeepAllSingle | backend/src/services/routing-service/meal-ranking.test.ts:19-53 | One meal passes the pipeline, once, iff it satisfies every step. With `KeepAllAppend`, this fixes the whole result as a sequence. |
| MealFilter.KeepAllOfEmpty | backend/src/services/routing-service/meal-ranking.test.ts:19-53 | No meal in gives no meal out. |
| MealFilter.NamesAppend | backend/src/services/routing-service/meal-ranking.test.ts:19-53 | The names of a joined list are the two name lists joined, so names keep meal order. |
| MealFilter.Names | backend/src/services/routing-service/meal-ranking.test.ts:19-29 | The names of the meals, one per meal, in order. |
| MealFilter.MealNamesForFilter | backend/src/services/routing-service/meal-ranking.test.ts:19-53 | A name is in the result iff some catalog meal with that name satisfies every step the filter selects. |
| MealFilter.KeepCommutes | backend/src/services/routing-service/meal-ranking.test.ts:31-53 | Two steps give the same list in either order. |
| MealFilter.KeepAllFirstStepLast | backend/src/services/routing-service/meal-ranking.test.ts:31-53 | The first step of a pipeline may be moved to its end without changing the result. |
| MealFilter.NoFilterKeepsCatalog | backend/src/services/routing-service/meal-ranking.test.ts:19-29 | With every flag false, the whole catalog is kept in catalog order, with all its names. |
| MealFilter.AdvancedRemovesStarters | backend/src/services/routing-service/meal-ranking.test.ts:31-41 | Without `unlocked`, setting `advanced` gives exactly the unset result minus its starter meals, meals and names alike. |
| MealFilter.UnlockedRemovesStartersAndUnlockables | backend/src/services/routing-service/meal-ranking.test.ts:43-53 | Setting `unlocked` gives exactly the no-tier result minus starter meals and unlockable-ingredient meals. |
| MealFilter.UnlockedNarrowsAdvanced | backend/src/services/routing-service/meal-ranking.test.ts:31-53 | The `unlocked` result is the `advanced` result minus the unlockable-ingredient meals. |
| MealFilter.UnlockedIgnoresAdvanced | backend/src/services/routing-service/meal-ranking.test.ts:55-71 | Under `unlocked`, the names are identical whether `advanced` is false or true. |
| MealFilter.FilterOnlyRemoves | backend/src/services/routing-service/meal-ranking.test.ts:19-53 | Every filter result is a sub-multiset of its input, so the filter never adds a meal. |
| RankOrder.NameAtMostTotal | backend/src/services/routing-service/meal-ranking.test.ts:90-142 | Any two names are comparable. |
| RankOrder.NameAtMostTransitive | backend/src/services/routing-service/meal-ranking.test.ts:90-142 | The name order is transitive. |
| RankOrder.NameAtMostAntisymmetric | backend/src/services/routing-service/meal-ranking.test.ts:90-142 | Two names that each come first are equal. |
| RankOrder.RanksBeforeTotal | backend/src/services/routing-service/meal-ranking.test.ts:90-142 | Any two ranking keys are comparable. |
| RankOrder.RanksBeforeTransitive | backend/src/services/routing-service/meal-ranking.test.ts:90-142 | The ranking order is transitive. |
| RankOrder.RanksBeforeAntisymmetric | backend/src/services/routing-service/meal-ranking.test.ts:90-142 | Two keys that each rank first have the same score and name. |
| RankOrder.Insert | backend/src/services/routing-service/meal-ranking.test.ts:90-142 | Insertion adds exactly the one entry. |
| RankOrder.HeadRanksFirst | backend/src/services/routing-service/meal-ranking.test.ts:90-142 | In a ranked list, the head ranks before every later entry. |
| RankOrder.InsertKeepsRanked | backend/src/services/routing-service/meal-ranking.test.ts:90-142 | Inserting into a ranked list keeps it ranked. |
| RankOrder.InsertKeepsDistinct | backend/src/services/routing-service/meal-ranking.test.ts:90-142 | Inserting an entry with a new name keeps the names distinct. |
| RankOrder.Rank | backend/src/services/routing-service/meal-ranking.test.ts:90-142 | The result is a permutation of the input, sorted by score descending then name ascending, with distinct names kept distinct. |
| RankOrder.TailRanked | backend/src/services/routing-service/meal-ranking.test.ts:90-142 | The tail of a ranked list is ranked. |
| RankOrder.TailDistinct | backend/src/services/routing-service/meal-ranking.test.ts:90-142 | The tail of a list with distinct names has distinct names. |
| RankOrder.SameHead | backend/src/services/routing-service/meal-ranking.test.ts:90-142 | Two rankings of the same entries, one with distinct names, begin with the same entry. |
| RankOrder.RepeatedEntryHasNoDistinctNames | backend/src/services/routing-service/meal-ranking.test.ts:90-142 | A list holding one entry twice or more does not have distinct names. |
| RankOrder.DistinctNamesSameName | backend/src/services/routing-service/meal-ranking.test.ts:217-285 | In a list with distinct names, two entries with the same name are one entry. |
| RankOrder.RankSameEntries | backend/src/services/routing-service/meal-ranking.test.ts:90-142 | Ranking keeps exactly the entries it was given. |
| RankOrder.RankedIsUnique | backend/src/services/routing-service/meal-ranking.test.ts:90-142 | Two ranked orders of the same entries with distinct names are equal, so the output is deterministic. |
| ReduceByKey.Reduced | backend/src/services/routing-service/meal-ranking.test.ts:75-142 | The fold has a key exactly for each key that occurs in the rows. |
| ReduceByKey.ReducedSnoc | backend/src/services/routing-service/meal-ranking.test.ts:75-142 | One more row updates only its own key: it combines with the kept value, or starts a new one. |
| ReduceByKey.FirstSeen | backend/src/services/routing-service/meal-ranking.test.ts:75-142 | Lists each key of the rows exactly once. |
| ReduceByKey.ValuesInOrder | backend/src/services/routing-service/meal-ranking.test.ts:75-142 | Gives the value of each listed key, in the order of the keys. |
| ReduceByKey.Reduce | backend/src/services/routing-service/meal-ranking.test.ts:75-142 | One pass builds exactly the fold's map and the first-seen key list. |
| MealRanking.RankingSources | backend/src/services/routing-service/meal-ranking.test.ts:90-142 | A ranking always reads the standard source, and reads the level-capped one iff `limit30`, each at most once. |
| MealRanking.DetailSource | backend/src/services/routing-service/meal-ranking.test.ts:304-338 | A detail lookup reads the standard source iff `limit30` is false. |
| MealRanking.Sources.constructor | backend/src/services/routing-service/meal-ranking.test.ts:75-88 | Starts with the two sources' answers and an empty query log. |
| MealRanking.Sources.GetFlexibleRankingForMeals | backend/src/services/routing-service/meal-ranking.test.ts:75-88 | Returns the source's flexible rows and appends this query, with its arguments, to the log. |
| MealRanking.Sources.GetFocusedRankingForMeals | backend/src/services/routing-service/meal-ranking.test.ts:225-230 | Returns the source's focused rows and appends this query, with its limit, to the log. |
| MealRanking.Sources.GetPokemonCombinationsForMeal | backend/src/services/routing-service/meal-ranking.test.ts:289-302 | Returns the source's meal detail and appends this query to the log. |
| MealRanking.KeepBetter | backend/src/services/routing-service/meal-ranking.test.ts:75-142 | The merge keeps one of its two rows: the later one exactly when its average is strictly higher, the kept one otherwise. The result's average is at least both averages. |
| MealRanking.BestPerPokemonIsBest | backend/src/services/routing-service/meal-ranking.test.ts:75-142 | Each pokemon's kept row is one of its rows, with the highest average among them, and is the first row reaching it. |
| MealRanking.BestRowExtends | backend/src/services/routing-service/meal-ranking.test.ts:75-142 | A best row stays best when a row that does not beat it is appended. |
| MealRanking.BestRowIsNewMaximum | backend/src/services/routing-service/meal-ranking.test.ts:75-142 | An appended row that beats every earlier row of its pokemon becomes that pokemon's best row. |
| MealRanking.ValuesHaveDistinctNames | backend/src/services/routing-service/meal-ranking.test.ts:75-142 | Values filed under their own distinct keys have distinct names. |
| MealRanking.BestFiledUnderOwnName | backend/src/services/routing-service/meal-ranking.test.ts:75-142 | Each pokemon's best row is filed under that pokemon. |
| MealRanking.BestValuesInOrder | backend/src/services/routing-service/meal-ranking.test.ts:75-142 | The listed values are exactly the best rows. |
| MealRanking.GeneralistRankingOf | backend/src/services/routing-service/meal-ranking.test.ts:75-142 | The ranking is sorted, has one entry per pokemon, and holds exactly the best row of each pokemon. |
| MealRanking.GeneralistRankingIsBestPerPokemon | backend/src/services/routing-service/meal-ranking.test.ts:75-142 | Every entry is its pokemon's best row, and a pokemon is ranked iff it has a row. |
| MealRanking.FlexibleQueries | backend/src/services/routing-service/meal-ranking.test.ts:90-213 | One flexible query per consulted source, in order, each with the filter's meals and berries. |
| MealRanking.FlexibleRowsFollowLimit30 | backend/src/services/routing-service/meal-ranking.test.ts:90-142 | The merged rows are the standard rows, followed under `limit30` by the level-capped rows. |
| MealRanking.GetMealGeneralistRanking | backend/src/services/routing-service/meal-ranking.test.ts:90-213 | Issues exactly the flexible queries of the consulted sources, in order, and returns the generalist ranking of their merged rows. |
| MealRanking.OnlyRowAppearsOnce | backend/src/services/routing-service/meal-ranking.test.ts:75-142 | A pokemon whose rows are all one row has exactly one entry, that row unchanged. |
| MealRanking.SharedPokemonAppearsOnce | backend/src/services/routing-service/meal-ranking.test.ts:75-142 | When both sources return the same row for a pokemon, that pokemon has exactly one entry, that row, with or without `limit30`. |
| MealRanking.SameSingleRowInBothSources | backend/src/services/routing-service/meal-ranking.test.ts:75-142 | When both sources return the same single row, the ranking is that row alone, with or without `limit30`. |
| MealRanking.SomePokemonScenario | backend/src/services/routing-service/meal-ranking.test.ts:75-142 | Both sources returning `some-pokemon` at average 0 gives exactly that one entry, with or without `limit30`. |
| MealRanking.StartEntry | backend/src/services/routing-service/meal-ranking.test.ts:217-230 | A pokemon's first row starts an entry equal to the aggregate of that row alone. |
| MealRanking.AddRow | backend/src/services/routing-service/meal-ranking.test.ts:217-230 | Adding a row keeps the pokemon, adds the total, and appends the meal and the whole ingredient list, repeats kept, after the entry's own. |
| MealRanking.RowsForMembers | backend/src/services/routing-service/meal-ranking.test.ts:217-285 | A pokemon's rows are exactly the rows naming it. |
| MealRanking.RowsForSnoc | backend/src/services/routing-service/meal-ranking.test.ts:217-285 | An appended row extends only its own pokemon's rows. |
| MealRanking.AggregateSnoc | backend/src/services/routing-service/meal-ranking.test.ts:217-285 | Adding a row to an aggregate is the aggregate of one row more. |
| MealRanking.NoRowsFor | backend/src/services/routing-service/meal-ranking.test.ts:217-285 | A pokemon no row names has no rows. |
| MealRanking.GroupedIsAggregate | backend/src/services/routing-service/meal-ranking.test.ts:217-285 | Each grouped entry has the pokemon's total, meals and ingredients summed over all of its rows, in order. |
| MealRanking.GroupedFiledUnderOwnName | backend/src/services/routing-service/meal-ranking.test.ts:217-285 | Each grouped entry is filed under its own pokemon. |
| MealRanking.GroupedValuesInOrder | backend/src/services/routing-service/meal-ranking.test.ts:217-285 | The listed values are exactly the grouped entries. |
| MealRanking.FocusedRankingOf | backend/src/services/routing-service/meal-ranking.test.ts:217-285 | The ranking is sorted by total, has one entry per pokemon, and holds exactly the grouped entries. |
| MealRanking.FocusedRankingSumsRows | backend/src/services/routing-service/meal-ranking.test.ts:217-285 | Every entry aggregates all of its pokemon's rows, and a pokemon is ranked iff it has a row. |
| MealRanking.RowsForAppend | backend/src/services/routing-service/meal-ranking.test.ts:217-285 | A pokemon's rows in two lists joined are its rows in the first then in the second. |
| MealRanking.TotalOfAppend | backend/src/services/routing-service/meal-ranking.test.ts:217-285 | The total of joined rows is the sum of the two totals. |
| MealRanking.IngredientsOfAppend | backend/src/services/routing-service/meal-ranking.test.ts:217-285 | The ingredients of joined rows are the two ingredient lists joined, repeats kept. |
| MealRanking.FocusedRowsFollowLimit30 | backend/src/services/routing-service/meal-ranking.test.ts:232-285 | The merged rows are the standard rows, followed under `limit30` by the level-capped rows. |
| MealRanking.FocusedSumsAcrossSources | backend/src/services/routing-service/meal-ranking.test.ts:217-285 | An entry's total is the total of its standard rows plus, under `limit30`, its level-capped rows. Its ingredients are theirs joined in that order. |
| MealRanking.SingleRowEntry | backend/src/services/routing-service/meal-ranking.test.ts:217-285 | A pokemon with a single row among rows of distinct pokemon is ranked as that row on its own. |
| MealRanking.RowsForOnce | backend/src/services/routing-service/meal-ranking.test.ts:217-285 | Among rows of distinct pokemon, a pokemon's rows are its one row. |
| MealRanking.OneRowPerSource | backend/src/services/routing-service/meal-ranking.test.ts:217-285 | One row per source for two different pokemon gives the standard row's entry, and under `limit30` the level-capped row's entry too, and nothing else. |
| MealRanking.NrOfMeals | backend/src/services/routing-service/meal-ranking.test.ts:232-285 | A given `nrOfMeals` is used as given; an omitted one becomes the default. |
| MealRanking.FocusedQueries | backend/src/services/routing-service/meal-ranking.test.ts:232-285 | One focused query per consulted source, in order, each with the same meals, berries and limit. |
| MealRanking.GetMealFocusedRanking | backend/src/services/routing-service/meal-ranking.test.ts:232-285 | Issues exactly the focused queries of the consulted sources, with `nrOfMeals` or the default as limit, and returns the focused ranking of their merged rows. |
| MealRanking.NrOfMealsReachesEveryQuery | backend/src/services/routing-service/meal-ranking.test.ts:232-285 | Every focused query carries the caller's `nrOfMeals` when given (5 in the test), else the default. |
| MealRanking.RankingQueriesFollowLimit30 | backend/src/services/routing-service/meal-ranking.test.ts:90-213 | A ranking always queries the standard source, queries the level-capped one iff `limit30`, and passes the same meals and berries to each. |
| MealRanking.GetMealDataAndRankingFor | backend/src/services/routing-service/meal-ranking.test.ts:288-338 | An unknown meal fails with NotFound and issues no query. A known meal issues one query, to the source `limit30` selects, and returns its answer unchanged. |

## Left out

- Persistence: the two database access objects and the mocking layer are not modelled. Each source is fixed answers plus a log of the queries issued to it.
- Which meal a detail answer belongs to is not modelled: a source returns the same `MealDetail` whatever meal is asked.
- The berry and level-60 exclusion arguments of the detail query are not modelled. The query records only the source and the meal name.
- Asynchrony and the propagation of a failed source query are not modelled. Every query here succeeds.
- Snapshot contents are not modelled: the exact meal lists and the exact recorded call arguments. What is stated is how the recorded queries depend on the inputs.
- Concrete catalog data is not modelled: the berries, the meals, `FANCY_APPLE`, the meals looked up by name, and the default `nrOfMeals`. They are abstract constants.
- The `lategame` and category steps are in the pipeline, but no property specific to them is proved.
- MealRanking.GetMealFocusedRanking: the merged ranking is not truncated to `nrOfMeals`. The limit bounds each source's query only, so after grouping the result may hold more than `nrOfMeals` entries.
- MealRanking.GetMealFocusedRanking: `nrOfMeals` is not validated. A negative value is passed on as given.
- Scores are unbounded integers, not floating point numbers.
- Names are compared by character code, with no locale-aware collation.
- The implementation files `berry-utils.ts` and `meal-ranking.ts` are not part of this model. The model follows what their tests assert, with the choices listed above where the tests are silent.
