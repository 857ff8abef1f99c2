# Diet recommendation engine — a Dafny model

The engine builds a week of South-Indian meals for a user in two steps:

- **Meal selection** (`get_meal_recommendations`) picks meals for breakfast, lunch, snack and
  dinner from a fixed catalog of twenty meals. It first filters the catalog by the user's
  comma-separated dietary restrictions. It then sorts each slot's meals by calories and
  orders them by fitness goal:
  - "Muscle Gain": highest-calorie first;
  - "Weight Loss": lowest-calorie first;
  - any other goal: the sorted list rotated to start at its middle.

  Finally it cycles that order into a seven-day list.
- **Weekly planning** (`generate_weekly_plan`) turns those per-slot lists into seven rows,
  Sunday to Saturday. Each cell reads `"<name> (<calories> cal)"`, and each row carries the
  day's calorie total. A day with no entry in a slot gets a diet-specific fallback meal
  instead. The restrictions string classifies the diet as Vegan, Vegetarian or
  Non-Vegetarian.

The web layer passes the selection and the same restrictions string straight into the
planner. The `Pipeline` module models that chaining.

Modules:

- `Text`: the Python string operations the engine relies on: `in` on strings, `split`,
  `strip`, ASCII `lower`, and integer rendering.
- `Catalog`: the meal catalog and the fallback meals.
- `Selector`: meal selection. Specification functions plus the imperative
  `GetMealRecommendations` with its loops over the slots.
- `Planner`: the weekly plan. Specification functions plus the imperative
  `GenerateWeeklyPlan`, `DayRow` and `DayTotal`.
- `Pipeline`: properties of the plan built from a selection.

The model follows the code as written. A restriction that is not selected puts the empty
string into the filter's word list, and the empty string occurs in every meal name. So
every slot is empty unless all five tags "Vegetarian", "Vegan", "Gluten-Free",
"Dairy-Free" and "Nut-Free" are present. The filtered dictionary always has every slot key,
so there is no fallback to the unfiltered catalog. Tags are compared untrimmed, so
"Vegan, Nut-Free" carries the tag " Nut-Free", not "Nut-Free". When all five tags are
present, no catalog name contains an excluded word, and the whole catalog passes. The planner
then falls back to its defaults on every day whose lists are empty.

## Model

| member | source | states |
|---|---|---|
| Text.SplitPiecesLackSeparator | recommendation_engine.py:39 | no piece of `split(",")` contains a comma |
| Text.JoinSplit | recommendation_engine.py:39 | joining the pieces of a split with the separator gives back the original string |
| Text.SplitJoin | recommendation_engine.py:39 | splitting a join of comma-free pieces gives back those pieces |
| Text.SplitWithoutSeparator | recommendation_engine.py:39 | a string without the separator splits into itself alone (so `"".split(",") == [""]`) |
| Text.SplitAtFirstSeparator | recommendation_engine.py:39 | splitting `a + "," + b` with comma-free `a` yields `a` followed by the pieces of `b` |
| Text.Strip | recommendation_engine.py:159 | `strip()` result is a contiguous part of the input with only whitespace cut from both ends, and it neither starts nor ends with whitespace |
| Text.StripUnpadded | recommendation_engine.py:159 | a string that does not start or end with whitespace strips to itself |
| Text.StripAllSpace | recommendation_engine.py:159 | an all-whitespace string strips to the empty string (the `if p.strip()` guard drops it) |
| Text.ParseNatToString | recommendation_engine.py:204 | reading back the decimal digits that the f-string renders for a natural number gives that number |
| Text.TrailingDigitsAfter | recommendation_engine.py:204 | the run of digits at the end of `prefix + digits` is exactly `digits` when the prefix ends in a non-digit |
| Text.Split | recommendation_engine.py:39 | Python's `split` on one separator: at least one piece, empty pieces kept; its meaning is stated by SplitPiecesLackSeparator, JoinSplit and SplitJoin |
| Text.Contains | recommendation_engine.py:103 | Python's `in` on strings, some position where the needle occurs; EmptyOccursEverywhere and CharAbsent state its two uses |
| Text.Lower | recommendation_engine.py:159 | `lower()` on ASCII letters: the result has the input's length; VeganReadsVegan and BlankVeganReadsVegan use it on the diet words |
| Text.IntToString | recommendation_engine.py:204 | the f-string rendering of an integer, with a leading '-' for negatives; ParseRender states that it reads back |
| Text.EmptyOccursEverywhere | recommendation_engine.py:103-108 | `"" in name` is true for every name |
| Text.CharAbsent | recommendation_engine.py:103 | a word with a character missing from the name is not a substring of it |
| Catalog.MealsFor | recommendation_engine.py:67-96 | each slot of the catalog holds five meals, with the catalog's exact names, calories and protein |
| Catalog.DefaultFor | recommendation_engine.py:179-199 | the fallback meal of each diet and slot, with the source's names and calories; FallbackDayCalories states their daily sums and FallbackRow their use |
| Catalog.FallbackDayCalories | recommendation_engine.py:179-199 | a day made only of fallback meals totals 1360 (Vegetarian), 1430 (Vegan) or 1490 (Non-Vegetarian) calories |
| Catalog.CatalogFreeOfExclusionWords | recommendation_engine.py:67-109 | no catalog name contains "Meat", "Animal", "Gluten", "Dairy" or "Nut" (case-sensitive) |
| Selector.ParseRestrictions | recommendation_engine.py:39 | "None" gives no tags; anything else gives at least one comma-free tag, and the tags joined with commas give back the input |
| Selector.ParseJoinedTags | recommendation_engine.py:39 | comma-free tags joined with commas parse back to the same tags |
| Selector.BlankAfterCommaKept | recommendation_engine.py:39 | "a, b" parses to `[a, " b"]`: the blank is kept and `" b"` matches no restriction tag |
| Selector.TwoTagsNotAllActive | recommendation_engine.py:103-109 | two tags can never switch on all five restriction words |
| Selector.Exclusions | recommendation_engine.py:103-109 | word i is the excluded word exactly when tag i is present, otherwise `""`; `""` is among the words exactly when some tag is missing |
| Selector.Keeps | recommendation_engine.py:102-109 | a meal is kept when none of the filter words occurs in its name; FilterMeals states the filter built on it |
| Selector.FilterMeals | recommendation_engine.py:101-110 | a meal is kept exactly when it is in the input and contains no filter word; kept meals keep their order; nothing is dropped when every meal passes |
| Selector.EmptyWordRemovesAll | recommendation_engine.py:101-110 | an empty word among the filter words removes every meal |
| Selector.FilterAllOrNothing | recommendation_engine.py:99-110 | a slot's filtered list is the whole catalog slot if all five tags are present, and empty otherwise |
| Selector.SortByCalories | recommendation_engine.py:128 | the sorted list is in ascending calorie order and a permutation of the input |
| Selector.Insert | recommendation_engine.py:128 | one insertion step of the sort: the result holds the input plus the meal, as a multiset; InsertAscending and InsertStable state its order |
| Selector.InsertAscending | recommendation_engine.py:128 | inserting into an ascending list keeps it ascending |
| Selector.InsertStable | recommendation_engine.py:128 | inserting a meal puts it ahead of every equal-calorie meal already in the list |
| Selector.SortStable | recommendation_engine.py:128 | the sort is stable: for each calorie value, the meals with that value keep their input order |
| Selector.Reverse | recommendation_engine.py:132 | element i of the reversal is element `n-1-i` of the input, and the reversal is a permutation |
| Selector.OrderPool | recommendation_engine.py:131-138 | every goal's ordering is a permutation of the sorted list |
| Selector.Rotate | recommendation_engine.py:137-138 | `sorted[mid:] + sorted[:mid]` keeps the length and is a permutation; OtherGoalRotates states where each element lands |
| Selector.WeightLossAscending | recommendation_engine.py:133-134 | "Weight Loss" keeps the ascending order unchanged |
| Selector.MuscleGainDescending | recommendation_engine.py:131-132 | "Muscle Gain" yields a descending calorie order |
| Selector.OtherGoalRotates | recommendation_engine.py:135-138 | any other goal puts sorted element `(i + n/2) mod n` at position i, so the middle element comes first |
| Selector.WeekList | recommendation_engine.py:141 | the week has seven entries |
| Selector.WeekListPeriodic | recommendation_engine.py:141 | day i serves `ordered[i mod n]`, so the week repeats with the pool's length as its period |
| Selector.WeekListStartsWithPool | recommendation_engine.py:141 | the first `min(n, 7)` days serve the ordering in order |
| Selector.WeekListCoversPool | recommendation_engine.py:141 | every served meal is in the ordering, and with at most seven options every option is served |
| Selector.SlotWeek | recommendation_engine.py:122-142 | an empty pool gives an empty list; otherwise seven meals, all drawn from the pool |
| Selector.SlotWeekServesAll | recommendation_engine.py:128-142 | a pool of one to seven meals is served in full during the week |
| Selector.SlotSelection | recommendation_engine.py:121-142 | a slot's seven-day list from the filtered catalog; EmptyUnlessAllActive, FullCatalogWhenAllActive and SelectionLength state its content |
| Selector.Recommendations | recommendation_engine.py:113-144 | the dictionary of the four slots' lists; RecommendationsKeys and RecommendationsAt state its keys and values |
| Selector.RecommendationsKeys | recommendation_engine.py:113-144 | the result has exactly the four slot keys |
| Selector.RecommendationsAt | recommendation_engine.py:113-144 | each slot's value is that slot's seven-day selection |
| Selector.EmptyUnlessAllActive | recommendation_engine.py:103-125 | with any of the five tags missing, every slot's list is empty |
| Selector.FullCatalogWhenAllActive | recommendation_engine.py:99-142 | with all five tags, a slot's list is the goal-ordered, cycled catalog slot, and it serves every catalog meal of that slot |
| Selector.SelectionLength | recommendation_engine.py:121-142 | each slot's list has 7 entries with all five tags present and 0 otherwise |
| Selector.FilterCatalog | recommendation_engine.py:99-110 | the filter loop builds a dictionary with every slot key, holding that slot's filtered meals |
| Selector.SelectWeeks | recommendation_engine.py:113-144 | the selection loop maps each slot to its empty or seven-day goal-ordered list |
| Selector.GetMealRecommendations | recommendation_engine.py:35-144 | the imperative engine returns exactly the specified recommendations |
| Planner.Tokens | recommendation_engine.py:159 | a token is present exactly when some piece strips to a non-empty string whose lower-case form it is |
| Planner.ClassifyDiet | recommendation_engine.py:157-169 | the diet read from the restrictions, Vegetarian for a missing or empty string; ClassifyDietByMentions states the full classification |
| Planner.TokenMentioned | recommendation_engine.py:159-165 | a non-empty word is among the tokens exactly when some comma piece, stripped and lower-cased, equals it |
| Planner.EmptyMentionsNothing | recommendation_engine.py:158-159 | the empty string mentions no diet word |
| Planner.ClassifyDietByMentions | recommendation_engine.py:157-169 | the diet is Vegan exactly when "vegan" is mentioned; it is Non-Vegetarian exactly when "vegan" and "vegetarian" are not mentioned and one of the three non-vegetarian spellings is |
| Planner.Render | recommendation_engine.py:204 | a cell begins with the meal name and ends with " cal)"; ParseRender states that it reads back exactly |
| Planner.EntryName | recommendation_engine.py:202 | `.get("name", "N/A")` on one entry; RowCell states its use |
| Planner.EntryCalories | recommendation_engine.py:203 | `.get("calories", 0)` on one entry; RowCell and DayTotal state its use |
| Planner.DayList | recommendation_engine.py:173-176 | `daily_meals.get(key, [])` for a slot; DayListOfSelection states what it reads from a selection |
| Planner.UsedName | recommendation_engine.py:201-235 | the name a day uses for a slot, the entry's or the fallback's; RowCell states which |
| Planner.UsedCalories | recommendation_engine.py:201-244 | the calories a day uses for a slot, the entry's or the fallback's; RowCell and CellShows state which |
| Planner.Cell | recommendation_engine.py:201-235 | a slot's cell for a day; CellShows states that it reads back as the used name and calories |
| Planner.SumUsed | recommendation_engine.py:237-244 | the total over a sequence of slots; SumUsedSlots and RowTotalMatchesCells state its value per row |
| Planner.PlanRow | recommendation_engine.py:246-253 | the row of one day; RowCell, RowTotalMatchesCells and FallbackRow state its cells and total |
| Planner.CellOf | recommendation_engine.py:246-253 | the cell under a slot's column of a row; RowCell states its content |
| Planner.ParseRender | recommendation_engine.py:201-235 | a rendered cell `"<name> (<cal> cal)"` can be read back into exactly its name and calories, negative calories included |
| Planner.CellShows | recommendation_engine.py:201-235 | a slot's cell shows the name and calories that the day uses for that slot |
| Planner.RowCell | recommendation_engine.py:201-235 | a cell shows the day's entry when the slot's list is long enough, with "N/A" and 0 for missing fields; otherwise it shows the diet's fallback meal |
| Planner.SumUsedSlots | recommendation_engine.py:237-244 | the day total is the sum of the four slots' used calories |
| Planner.RowTotalMatchesCells | recommendation_engine.py:237-253 | a row's total equals the sum of the calories shown in its four cells |
| Planner.FallbackRow | recommendation_engine.py:179-244 | a day past the end of every list shows the diet's four fallback meals and totals the fallback day calories |
| Planner.EmptyListsFallBack | recommendation_engine.py:171-255 | with all lists empty, every day totals the diet's fallback calories |
| Planner.WeeklyPlan | recommendation_engine.py:154-255 | the plan has seven rows, Sunday to Saturday in order |
| Planner.GenerateWeeklyPlan | recommendation_engine.py:147-255 | the imperative loop returns exactly the specified weekly plan |
| Planner.DayRow | recommendation_engine.py:173-253 | one loop iteration builds the specified row of day i |
| Planner.DayTotal | recommendation_engine.py:237-244 | the total loop adds, per slot, the entry's calories or the fallback's, giving the specified sum |
| Pipeline.Entries | app.py:57-77 | the selected meals reach the planner one for one, with their names and calories |
| Pipeline.AsDaily | app.py:77 | the selection keyed by slot name as the planner receives it; DayListOfSelection states that each slot's list arrives unchanged |
| Pipeline.SlotKeyInjective | recommendation_engine.py:113-119 | distinct slots have distinct dictionary keys |
| Pipeline.DayListOfSelection | recommendation_engine.py:173-176 | the planner's list for a slot is that slot's selected meals |
| Pipeline.Plan | app.py:57-77 | the end-to-end plan has seven rows, Sunday to Saturday |
| Pipeline.SelectedLists | app.py:57-77 | the planner reads each slot's list straight from the selection |
| Pipeline.PlanFallsBack | app.py:57-77 | without all five tags, every cell of the plan shows the diet's fallback and every day totals the fallback day calories |
| Pipeline.SelectedRow | recommendation_engine.py:201-244 | when every slot's list reaches day i, the row shows the selected meals and totals their calories |
| Pipeline.PlanServesSelection | app.py:57-77 | with all five tags, day i of the plan shows the meals selected for day i and totals their calories |
| Pipeline.AllActiveIsVegan | recommendation_engine.py:157-169 | a restrictions string that switches on all five tags is classified as Vegan |
| Pipeline.BlankVeganIsVegan | recommendation_engine.py:157-169 | "x, Vegan" is classified as Vegan, because the planner strips the blank |
| Pipeline.BlankBeforeVegan | app.py:57-77 | for "x, Vegan" the selection is empty, yet the plan is built from the Vegan fallbacks at 1430 calories a day |

## Left out

- `calculate_calories` (recommendation_engine.py:5-32) is left out: it is floating-point
  Harris-Benedict arithmetic truncated with `int()`, and its result feeds only the unused
  lines 56-64. The user profile that app.py:45 reads from the database is left out too.
- The macro ratios and per-meal calorie targets (recommendation_engine.py:41-64, 114-119) are
  floating-point values that no output depends on. The `calories` parameter feeds only
  them, so the model has no such parameter.
- The Flask routes and `database_helper.py` are left out. The model keeps only the way
  app.py:57 and app.py:77 chain the two functions.
- Planner.ClassifyDiet: `lower()` is modelled for ASCII letters only. Unicode case mapping
  is not modelled.
- Catalog entries and planner entries have integer calories and string names. Non-integer
  calories, non-string names and `None` values are not modelled. A missing field is
  modelled as `None`, standing for `.get` with a default.
- Dictionary iteration order is fixed to breakfast, lunch, snack, dinner, the order the
  source writes its literals in.
- The sort is modelled as a stable insertion sort. The model states its result (ascending,
  a permutation, stable) rather than Python's Timsort steps.
