# Daily meal planner: a Dafny model

This project models the decision logic of a daily meal planner built on a recipe
catalog, together with the feature engineering that produces that catalog.

- **Catalog export** (`scripts/export_mvp_dataset.py`). Each raw recipe row is turned
  into a catalog row:
  - The raw `Keywords` cell is an R character vector as R prints it: `"Easy"` for one
    element, `c("Dessert", "Easy")` for more. Every run of the characters `c`, `(` and
    `)` is stripped from both ends of the cell. This is Python's `strip('c()')`, so a
    cell such as `character(0)` becomes `haracter(0`. Then every double quote is
    removed, the cell is split at every comma, and each piece is trimmed and
    lower-cased.
  - The keyword list and the nutrients give fifteen 0/1 feature columns: diet, preparation
    time, calorie band and protein band.
  - The recipe category gives a coarse `MealCat` label.
- **Preference filter** (`filter_by_preferences`). The user's one-letter choices narrow the
  catalog, one condition after another, to the rows whose requested columns are 1.
- **Meal slots** (`generate_meal_names`, `optimal_weights_per_meal`, `number_of_meals`).
  - The number of slots comes from the daily targets and the catalog's average calories
    and protein.
  - The slots are named by count.
  - Each slot gets a share of the day: its base weight over the total, rounded to two
    decimals.
- **Plan generation** (`generate_daily_meal_plan`). For each slot, a recipe is picked at
  random among the rows whose calories and protein fall within the tolerance of the slot's
  share of the targets. When no row fits, any row of the filtered catalog is picked. The
  plan records the truncated nutrients and reports the totals in a message.

Modules:

| Module | File | Content |
|---|---|---|
| `Wrappers` | `wrappers.dfy` | `Option` |
| `Text` | `text.dfy` | Python's `strip`, `replace`, `split`, `lower`, and the decimal rendering of `str(int)` |
| `Numeric` | `numeric.dfy` | `round(x, 2)` (half-even) and `int(x)` (truncation) |
| `Features` | `features.dfy` | keyword parsing, feature columns, `MealCat` |
| `Catalog` | `catalog.dfy` | catalog rows, `ExportRow`, column sums and means |
| `Preferences` | `preferences.dfy` | the preference filter and its laws |
| `MealSlots` | `slots.dfy` | slot names, weights and count |
| `Planner` | `planner.dfy` | plan generation |

Three operations update their state step by step, so they are methods:
- The preference filter is a chain of reassignments of the working frame, without a loop.
- The weight computation has two loops over the slot names.
- The plan loop runs over the slots.

Each method is proved equal to a specification function, or to properties stated over such
functions. The rest is pure functions and lemmas.

## Model

| member | source | states |
|---|---|---|
| Text.TrimLeft | scripts/export_mvp_dataset.py:37 | Only characters in the strip set are removed from the front; the result is a suffix that starts with a kept character; no other character's count changes |
| Text.TrimRight | scripts/export_mvp_dataset.py:37 | Only characters in the strip set are removed from the back; the result is a prefix that ends with a kept character; no other character's count changes |
| Text.Strip | scripts/export_mvp_dataset.py:37 | The result is a contiguous piece of the input whose two ends are outside the strip set; characters outside the strip set keep their counts |
| Text.RemoveChar | scripts/export_mvp_dataset.py:37 | `replace('"', '')` leaves no quote, keeps the count of every other character, and is the identity on a string without quotes |
| Text.RemoveCharAppend | scripts/export_mvp_dataset.py:37 | Removing a character distributes over concatenation |
| Text.Split | scripts/export_mvp_dataset.py:39 | `split(',')` yields one more piece than there are commas; no piece holds a comma; joining the pieces with commas gives back the input |
| Text.SplitAtSeparator | scripts/export_mvp_dataset.py:39 | A string made of a comma-free head, a comma and a tail splits into the head followed by the pieces of the tail |
| Text.Lower | scripts/export_mvp_dataset.py:39 | `lower()` keeps the length, leaves no upper-case letter, and maps each character on its own |
| Text.LowerCharSpace | scripts/export_mvp_dataset.py:39 | Lower-casing a character neither creates nor removes whitespace |
| Text.LowerIdempotent | scripts/export_mvp_dataset.py:117 | Lower-casing twice is lower-casing once |
| Text.ParseIntToString | streamlit_app.py:195 | The decimal rendering of an integer reads back as that integer |
| Numeric.Round2 | streamlit_app.py:128 | `round(x, 2)` is a whole number of hundredths within 0.005 of `x` |
| Numeric.Trunc | streamlit_app.py:188-189 | `int(x)` truncates toward zero: below `x` by less than 1 for non-negative `x`, above it by less than 1 for negative `x` |
| Features.CleanKeywordCell | scripts/export_mvp_dataset.py:37 | The cleaned cell has no double quote and exactly as many commas as the raw cell |
| Features.NormalizedShape | scripts/export_mvp_dataset.py:39 | A normalised keyword has no whitespace at either end and no upper-case letter, and holds a quote or a comma only if the piece did |
| Features.ParseKeywords | scripts/export_mvp_dataset.py:37-41 | A missing cell gives no keywords; otherwise there is one keyword per comma plus one, each trimmed, lower-case, and free of quotes and commas |
| Features.NormalizeAll | scripts/export_mvp_dataset.py:39 | The list comprehension keeps one keyword per piece, in order, each the normalised piece; from pieces without quotes or commas it yields normal keywords |
| Text.SplitKeepsAbsent | scripts/export_mvp_dataset.py:37-39 | A character removed from the cell, such as the double quote, appears in no piece of the split |
| Features.ParseRenderedKeywords | scripts/export_mvp_dataset.py:37-41 | Any non-empty list of keywords free of quotes and commas, printed as R prints it (`"k1"` or `c("k1", "k2", ...)`), parses to one stripped, lower-cased keyword per element, in order; capitalised keywords included |
| Features.DessertEasyCell | scripts/export_mvp_dataset.py:37-41 | The cell `c("Dessert", "Easy")` parses to `dessert` and `easy` |
| Features.ParseRenderedVector | scripts/export_mvp_dataset.py:37-41 | Round trip: any non-empty list of non-empty normalised keywords, printed as R prints it, parses back to the same list |
| Features.CleanRendered | scripts/export_mvp_dataset.py:37 | Cleaning a printed vector leaves its items joined by `, `, with no wrapper and no quotes |
| Features.NormalizeSplitItems | scripts/export_mvp_dataset.py:39 | Splitting items joined by `, ` gives one piece per item, each normalising as its item does |
| Features.NormalizeLeadingSpace | scripts/export_mvp_dataset.py:39 | The space after a comma never changes how a piece normalises |
| Features.NormalizeItems | scripts/export_mvp_dataset.py:39 | Splitting items joined by `, ` and normalising each piece gives normalised keywords back unchanged |
| Features.SplitItems | scripts/export_mvp_dataset.py:39 | Splitting `k1, k2, ...` at commas gives `k1` and then each later keyword with one leading space |
| Features.WordListInclusions | scripts/export_mvp_dataset.py:47-88 | The non-fish meats are meats; the dairy products are animal products; both are among the vegan exclusions |
| Features.DeriveFlags | scripts/export_mvp_dataset.py:43-101 | Every feature column is 0 or 1; exactly one calorie band and exactly one protein band is set |
| Features.DietFlagsNested | scripts/export_mvp_dataset.py:47-62 | Vegan implies vegetarian, and vegetarian implies pescatarian |
| Features.VeganIsDairyFree | scripts/export_mvp_dataset.py:47-92 | A vegan row is dairy-free |
| Features.EasyIsStandardPrepTime | scripts/export_mvp_dataset.py:44-73 | An easy row has standard preparation time |
| Features.WholeKeywordMembership | scripts/export_mvp_dataset.py:47-56 | Flags test whole keywords: `chicken breast` does not make a row non-vegetarian, `chicken` does |
| Features.MealCat | scripts/export_mvp_dataset.py:103-117 | The label is Snacks, Breakfast or Lunch/Dinner; a missing or unlisted category gives Lunch/Dinner; a listed one, compared in lower case, gives its mapped label |
| Features.MealCatIgnoresCase | scripts/export_mvp_dataset.py:117 | A category and its lower-cased form get the same label |
| Catalog.ExportRow | scripts/export_mvp_dataset.py:37-117 | An exported row keeps its name and nutrients and satisfies every row invariant: binary columns, nested diets, vegan implies dairy-free, easy implies standard time, one band per nutrient, a known `MealCat` |
| Preferences.SelectMembers | streamlit_app.py:66 | A row survives a column condition exactly when it is in the input and has a 1 in every requested column |
| Preferences.SelectSelect | streamlit_app.py:63-93 | Two filters applied one after the other are one filter on both sets of columns |
| Preferences.SelectSameColumns | streamlit_app.py:63-93 | The filter depends only on which columns are requested, not on their order or repetition |
| Preferences.SelectNothing | streamlit_app.py:63 | Requesting no column keeps every row |
| Preferences.SelectIsSubsequence | streamlit_app.py:95 | The filter keeps rows in catalog order and invents none |
| Preferences.FilterByPreferences | streamlit_app.py:61-95 | The step-by-step filter returns exactly the single-pass filter on all the requested columns |
| Preferences.FilterSoundCompleteOrdered | streamlit_app.py:61-95 | A row is in the result exactly when it is in the catalog with a 1 in every requested column; the result is a subsequence of the catalog |
| Preferences.FilterIdentity | streamlit_app.py:61-95 | With no recognised preference, the result is the catalog |
| Preferences.FilterIdempotent | streamlit_app.py:61-95 | Filtering the result again with the same preferences changes nothing |
| Preferences.ConditionsCommute | streamlit_app.py:65-93 | The order in which conditions are applied does not matter |
| Preferences.VeganAloneSuffices | streamlit_app.py:65-69 | Over exported rows, asking for vegetarian as well as vegan gives the same rows as vegan alone |
| MealSlots.MealNames | streamlit_app.py:97-110 | There are `count` names for a non-negative count (Python slicing for a negative one), and they are pairwise distinct |
| MealSlots.NumberedNamesDistinct | streamlit_app.py:109-110 | The i-th numbered slot reads back as number i + 1, so numbered names are distinct |
| MealSlots.MealNamesOfLength | streamlit_app.py:97-110 | Asking for as many names as were returned gives the same names |
| MealSlots.UnlistedWeighThree | streamlit_app.py:114-124 | `Snack`, the third slot of a four-slot day, weighs 3, and from seven slots on every numbered `Meal k` slot is missing from the table and weighs 3 |
| MealSlots.TotalBase | streamlit_app.py:126 | The total base weight is at least 2 per slot, so it is never zero for a non-empty day |
| MealSlots.SlotWeightNear | streamlit_app.py:128 | A slot's weight is whole hundredths within 0.005 of its exact share |
| MealSlots.WeightsFor | streamlit_app.py:120-130 | The dict's keys are exactly the slot names, and each value is the slot's rounded share of the total base weight |
| MealSlots.OptimalWeights | streamlit_app.py:112-130 | The same for the names of `count` slots |
| MealSlots.WeightSumNear | streamlit_app.py:126-128 | The weights of any run of slots, each the value `WeightsFor` stores for it, add up to the run's exact share of the total within 0.005 per slot |
| MealSlots.WeightsSumNearOne | streamlit_app.py:126-128 | The values of the weights dict add up to 1 within 0.005 per slot |
| MealSlots.NumberOfMeals | streamlit_app.py:132-145 | An empty catalog gives Breakfast, Lunch, Dinner; otherwise, with a cap of at least 2, between 2 and the cap slots; the names are those of their count and distinct |
| MealSlots.EstimateMonotone | streamlit_app.py:140-141 | With a positive average, a larger target never gives a smaller estimate |
| MealSlots.MoreCaloriesNoFewerMeals | streamlit_app.py:140-145 | Raising the calorie target never lowers the number of slots |
| Planner.EntryFor | streamlit_app.py:186-190 | An entry records the slot and the recipe name, and each nutrient truncated to within 1 below its value |
| Planner.SuitableMembers | streamlit_app.py:170-175 | A row is suitable exactly when it is in the catalog and both nutrients lie within the window |
| Planner.Sample | streamlit_app.py:170-184 | The pick is a catalog row, and a suitable one whenever any row is suitable |
| Planner.FillSlots | streamlit_app.py:165-193 | One entry per slot in slot order, each from a catalog row, suitable for its slot whenever one exists; the running totals are the entries' sums |
| Planner.GenerateDailyMealPlan | streamlit_app.py:147-195 | No plan and the no-recipes message for an empty catalog; otherwise one entry per slot of `number_of_meals`, each from a row suitable for the slot's rounded share when one exists, and the message reporting the entries' totals |
| Planner.TotalsTruncateSums | streamlit_app.py:186-193 | With non-negative nutrients, each total is at most the picked recipes' exact sum and less than one unit per entry below it |
| Planner.SummaryTextInjective | streamlit_app.py:195 | Different totals never give the same message |
| Planner.SummaryCaloriesPart | streamlit_app.py:195 | The message's calorie total is the text between `Total: ` and the next space |
| Planner.SummaryProteinPart | streamlit_app.py:195 | The message's protein total is the text after ` calories, ` up to the next `g` |
| Planner.SingleRecipeDay | streamlit_app.py:147-195 | One recipe of 500 calories and 30 g, with targets 2400 and 120 and at most three meals: Breakfast, Lunch and Dinner all get that recipe, and the message reads `Total: 1500 calories, 90g protein` |

## Left out

- Floating point: nutrients, targets, shares and windows are exact reals. Python `float` rounding is not modelled; `round(x, 2)` rounds the exact value, half to even.
- Text.Lower: only the ASCII letters are lower-cased. Python's `str.lower()` also folds non-ASCII letters.
- Missing (NaN) nutrients are not modelled. pandas' `mean` skips them; the model averages every row.
- Planner.Sample: the pick is any row of the frame sampled (a nondeterministic choice), not a uniform random draw.
- Planner.GenerateDailyMealPlan: the rows picked are returned as a ghost sequence so the contract can name them.
- Planner.GenerateDailyMealPlan, MealSlots.NumberOfMeals, MealSlots.Estimate: with a zero average calorie or protein value, the slot estimate at streamlit_app.py:140-141 raises. The model requires non-zero averages for a non-empty catalog instead of modelling the exception.
- Default arguments (`count=3`, `target_calories=2500`, `target_protein=120`, `tolerance=0.2`, `max_meals=6`) have no counterpart: every argument is explicit in the model.
- Planner.GenerateDailyMealPlan: the `continue` at streamlit_app.py:182 is unreachable, because the catalog is non-empty by then. The model has no branch for it.
- The plan dict and the weights dict: the plan is a sequence in slot order, because the slot names are distinct (proved) and Python dicts keep insertion order. The weights are a Dafny map.
- MealSlots.WeightsFor: `sum(meal_plan_weights.values())` is modelled as the sum of the base weights over the slot names. The two agree because the names are distinct.
- `reset_index(drop=True)`: catalog rows carry no index, so renumbering has no counterpart.
- Outlier removal, dataset loading and writing, the command-line flow of the export script, and the Streamlit user interface (`main`, `load_data`, `collect_preferences`) are not modelled.
- `scripts/recommendation_engine.py` and the settings module are not part of this model.
- Three points of the code that the model follows exactly:
  - `Snack` is not in the weight table, so it gets the default weight 3.
  - The pick depends only on the nutrient window: `MealCat` plays no part, and there is no rating tie-break.
  - The totals add the `int()` truncations of the nutrients.
