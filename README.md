# Meal-plan composer: a Dafny model

This project models the plan-composition core of the meal planner in `app.py`.
The planner takes a food catalog and the user's preferences and builds a
multi-day plan of meals. The model covers these steps:

- The diet filter (`filter_by_diet`).
- The macro targets (`macro_targets`), using the 4/4/9 kcal-per-gram factors.
- The meal score (`score_meal`): a weighted L1 distance to the per-meal targets.
- The randomized day search (`build_day`): 500 restarts, a soft penalty
  against foods already used that day, a random `k` items per meal, and an
  optional bonus item.
- The planning pipeline (`generate_plan`):
  - the diet filter, then the tag, group and dislike exclusions;
  - a fallback to the diet-only pool when fewer than 5 foods remain;
  - one `build_day` per day.
- The shopping list of `to_html`: portions counted per food name, sorted by
  decreasing count and then by name.

Every random draw is an input. `MealDraw` holds all the draws one meal
consumes. `build_day` reads them as `draws(trial)(meal)` and `generate_plan`
as `draws(day)(trial)(meal)`. The search therefore becomes a deterministic
loop, whose result is specified against the history of all 500 trials.

Modules:

- `Results`: `Option`, and `Outcome` (`Raised` or `Returned`) for Python
  exceptions.
- `Seqs`: order-preserving filtering, the subsequence relation, and distinctness.
- `Text`: `str.lower` on ASCII, `str.strip`, `str.split` on one character, and
  substring search.
- `Foods`: catalog entries and `filter_by_diet`.
- `Nutrition`: `macro_targets` and `score_meal`.
- `Composer`: `build_day`.
- `Plan`: `generate_plan`.
- `Shopping`: the shopping tally and sort.

Facts about `app.py` that shape the model:

- `build_day` runs 500 trials (line 100).
- The item count `k` is drawn afresh for every meal (line 104).
- A `k` outside `0..len(foods)` makes `random.sample` raise `ValueError`
  (line 108). Here `foods` is the pool handed to `build_day`, the plan pool of
  line 198, which after the diet filter can be much smaller than the catalog.
  The exception ends `generate_plan`; the model returns `Raised`.
- `generate_plan` divides by the meal count (line 179), so zero meals raise
  `ZeroDivisionError`. This is also `Raised`.

## Model

| member | source | states |
|---|---|---|
| Foods.FilterByDiet | app.py:70-79 | Keeps exactly the items the diet's rule accepts, in catalog order, each as often as the catalog lists it. Unknown diets and "omnivore" keep everything. Distinct catalogs stay distinct. |
| Foods.VegetarianIsVeganOrTagged | app.py:74-76 | The vegetarian rule is the vegan rule plus the "vegetarian" tag. |
| Foods.VeganWithinVegetarian | app.py:74-76 | The vegan pool is an order-preserving subsequence of the vegetarian pool. |
| Nutrition.MacroTargets | app.py:81-85 | Each gram target times its kcal-per-gram factor (4, 4, 9) equals its share of the calories. Together they carry `total * (p + c + f)` kcal. |
| Nutrition.MacrosCarryTotal | app.py:81-85 | Shares that add up to one give targets carrying exactly the calorie total. |
| Nutrition.MacrosNonNegative | app.py:81-85 | Non-negative calories and shares give non-negative targets. |
| Nutrition.MacroTargetsExample | app.py:81-85 | 2000 kcal at 30/40/30 gives 150 g protein, 200 g carbs and 600/9 g fat. |
| Nutrition.Score | app.py:87-96 | The score is never negative. It is zero exactly when the meal's four sums equal the per-meal targets. |
| Nutrition.TotalsPermutation | app.py:88-91 | The four sums do not depend on the order of the items. |
| Nutrition.ScorePermutation | app.py:87-96 | Reordering a meal's items leaves its score unchanged. |
| Composer.ClampK | app.py:104 | `min(max_items, max(2, kRaw))`: never above the limit, at least 2 unless the limit is smaller, and `kRaw` itself when it lies in range. |
| Composer.Candidates | app.py:103 | An order-preserving subsequence of the pool. It holds every food whose name is unused or whose readmission draw succeeded, and only such foods: each candidate sits at a position of the pool where its name is unused or the draw readmits it. |
| Composer.CandidatesAvoidUsed | app.py:103 | With no readmission, no candidate's name has been used. |
| Composer.Sample | app.py:108 | `k` items drawn from the candidates without replacement: no item is taken more often than the candidates hold it, so they are pairwise different when the candidates are. |
| Composer.MealPool | app.py:103-107 | The list drawn from is the candidates when there are at least `k` of them, and all foods otherwise. Either way it is an order-preserving subsequence of the pool. |
| Composer.ComposeMeal | app.py:103-110 | Raises exactly when the clamped `k` is negative or above the pool size. Otherwise every item, bonus included, comes from `MealPool`, the list the meal is drawn from. The first `k` are a sample without replacement from that list. There is one more item exactly when the bonus draw succeeds and the list is not empty. |
| Composer.DayScore | app.py:111 | A day's total score is never negative. |
| Composer.RunMeals | app.py:101-113 | One trial raises exactly when some meal's draw makes `random.sample` raise. Otherwise its score is the sum of its meals' scores. |
| Composer.RunMealsShape | app.py:101-113 | Starting from `used` equal to the names of the meals so far, a completed trial has one meal per requested meal. Each meal fits its clamped `k` and is drawn from its `MealPool` over the names the earlier meals of that day used. |
| Composer.TrialShape | app.py:101-113 | Every completed trial's day has `DayShape`: the requested meal count, with meal `i` drawn after meals `0..i-1` used their names. |
| Composer.UsedByNames | app.py:112 | The names used after a run of meals are exactly the names of their items. |
| Composer.NoRepeatWithoutReadmission | app.py:103-112 | Soft avoidance across a day: when no readmission draw of a meal succeeds and there are at least `k` candidates, that meal shares no name with any earlier meal of the day. |
| Composer.TakeMeal | app.py:108-110 | Every item, bonus included, comes from `cands`. The first `k` are taken from `cands` without replacement. The meal has `k + 1` items when the bonus draw succeeds and `cands` is not empty, and `k` items when the draw fails. |
| Composer.AddNames | app.py:112 | The used-name set grows by exactly the names of the meal. |
| Composer.RunTrialLoop | app.py:101-113 | The meal loop computes the trial `RunMeals` specifies, day and running score included. |
| Composer.SelectStep | app.py:114-115 | A strictly lower score replaces the best day; an equal or higher one keeps it. |
| Composer.SelectDone | app.py:99-116 | After all trials, the kept day is the first trial with the lowest score below 1e9, or none when no trial gets below it. |
| Composer.BuildDay | app.py:98-116 | It returns the first lowest-scoring day of the 500 trials, none when no trial scores below 1e9, and raises when some trial raises. A returned day has the requested meal count and meals each drawn after the earlier meals of the day used their names. It never raises when `0 <= max_items <= len(foods)`. |
| Composer.BestDayUnique | app.py:98-116 | The draws determine the result of `build_day` uniquely. |
| Composer.NeverRaises | app.py:104-108 | With `0 <= max_items <= len(foods)`, no trial raises. |
| Text.Lower | app.py:189 | Same length, no upper-case letter left. Each letter `A`-`Z` becomes the letter 32 code points up (`a`-`z`), and every other character stays as it is. |
| Text.LowerIgnoresCase | app.py:189-191 | Two strings of equal length lower-case to the same string exactly when they agree position by position up to the case of ASCII letters. |
| Text.Strip | app.py:189 | The result is an infix of the input, with only whitespace cut on either side and no whitespace left at its ends. |
| Text.Split | app.py:189 | At least one piece, and no piece contains the separator. |
| Text.JoinSplit | app.py:189 | Joining the pieces with the separator gives back the string. |
| Text.SplitJoin | app.py:189 | Splitting a join of separator-free pieces gives back the pieces. |
| Text.Contains | app.py:191 | True exactly when the needle occurs at some position of the haystack. |
| Plan.TargetsOf | app.py:178-180 | The meal calorie target times the meal count is the effective calorie total. Protein and carbohydrate grams times 4, and fat grams times 9, are each that macro's share of the total. |
| Plan.ExcludeTags | app.py:184-185 | Keeps exactly the foods with no excluded tag, in order, each as often as the pool holds it. |
| Plan.ExcludeGroups | app.py:186-187 | Keeps exactly the foods outside the excluded groups, in order, each as often as the pool holds it. |
| Plan.CleanTokens | app.py:189 | Holds the cleaned form of every non-blank piece, and nothing else. |
| Plan.DislikeTokens | app.py:188-189 | The tokens are exactly the stripped, lower-cased, non-blank comma-separated pieces. |
| Plan.CleanTokenShape | app.py:189 | A non-blank piece cleans to a non-empty token with no edge whitespace, no comma and no upper-case letter. |
| Plan.DislikeTokensShape | app.py:188-189 | Every dislike token has that shape. |
| Plan.NoDislikesNoTokens | app.py:188 | An empty dislike string gives no tokens. |
| Plan.ExcludeDislikes | app.py:190-191 | Keeps exactly the foods whose lower-cased name contains no token, in order, each as often as the pool holds it. |
| Plan.TagStep | app.py:184-185 | The tag step, applied only when tags are given, keeps exactly the foods without an excluded tag, in order and with their counts. |
| Plan.GroupStep | app.py:186-187 | The group step keeps exactly the foods outside the excluded groups, in order and with their counts. |
| Plan.DislikeStep | app.py:188-191 | The dislike step, skipped for an empty string or empty token list, keeps exactly the foods not disliked, in order and with their counts. |
| Plan.StrictPool | app.py:181-191 | After the exclusions, the pool holds exactly the foods passing the diet and every exclusion, in catalog order, each as often as the catalog lists it. |
| Plan.PlanPool | app.py:192-194 | The pool handed to `build_day` is always a subsequence of the diet pool. |
| Plan.PoolFallback | app.py:192-194 | With fewer than 5 foods left, the pool is exactly the diet pool. Otherwise it has at least 5 foods, all passing the exclusions. |
| Plan.PoolShrinks | app.py:181-194 | The filters never grow the pool beyond the diet pool, nor that beyond the catalog. |
| Plan.SelectPool | app.py:181-194 | The step-by-step reassignment ends in the plan pool. The warning fires exactly when the exclusions leave fewer than 5 foods. |
| Plan.BuildDays | app.py:196-199 | One entry per day, each what `build_day` returns on that day's draws. It raises when some day's `build_day` raises, and never raises when `0 <= max_items <= len(pool)`. |
| Plan.GeneratePlan | app.py:177-200 | Zero meals raise. Otherwise the result matches the per-day `build_day` results on the plan pool, with the preference targets. The warning is exactly the fallback. It never raises when `0 <= max_items <= len(pool)`. |
| Plan.NoWarningNoRaise | app.py:192-199 | Without the warning, a limit between 0 and 5 items per meal never raises. |
| Shopping.LexTotal | app.py:170 | Python string order is total and asymmetric. |
| Shopping.LexTransitive | app.py:170 | Python string order is transitive. |
| Shopping.NotBeforeTransitive | app.py:170 | "Does not sort after" under the key `(-count, name)` is transitive. |
| Shopping.BeforeAntisymmetric | app.py:170 | Rows that neither sort before the other are equal. |
| Shopping.Insert | app.py:170 | Inserting one row adds exactly that row, and its count to the total. |
| Shopping.InsertSorted | app.py:170 | Inserting into a sorted list keeps it sorted. |
| Shopping.SortRows | app.py:170 | `sorted(..., key=lambda x: (-x[1], x[0]))` is sorted, a permutation of its input, and keeps the portion total. |
| Shopping.SortedUnique | app.py:170 | Two sorted permutations of the same rows are equal, so the key fixes the order completely. |
| Shopping.FirstOccurrences | app.py:133-137 | The dictionary's keys are distinct and are exactly the names seen. |
| Shopping.CountMapCounts | app.py:133-137 | Each key's count is the number of times its name occurs. |
| Shopping.TallyBump | app.py:137 | One `shopping.get(name, 0) + 1` update turns the tally of `seen` into the tally of `seen + [name]`. |
| Shopping.Bump | app.py:137 | The update appends a new name to the keys with count 1, or raises a known name's count by one. |
| Shopping.CountMeal | app.py:136-137 | Counting a meal extends the tally by the meal's item names. |
| Shopping.CountDay | app.py:135-137 | Counting a day extends the tally by the day's item names, meal after meal. |
| Shopping.TallyRows | app.py:133-137 | `shopping.items()` lists every name once with its occurrence count. |
| Shopping.TalliesSameRows | app.py:133-137 | Two such listings of the same names hold the same rows. |
| Shopping.TalliesPermutation | app.py:170 | Rearranging a listing keeps it a listing. |
| Shopping.ShoppingListTotal | app.py:133-137 | The portion counts add up to the number of items served. |
| Shopping.ShoppingListUnique | app.py:170 | The printed rows depend only on the items served, not on dictionary order. |
| Shopping.ShoppingList | app.py:133-137 | Raises (`TypeError`) exactly when some day is `None`. Otherwise the rows are sorted by (-count, name) after the tally of lines 133-137 (sort at line 170), list each served name once with its count, and add up to the number of items. |

## Left out

- The Streamlit interface, the labels and their translations, and line 193's `st.warning` itself. The warning is the returned `warned` flag.
- `load_foods` and JSON parsing: the catalog is given as a sequence of `Food` values, and a missing `tags` list is the empty list.
- The HTML text of `to_html`, `meal_stats` and `day_stats`, and the date: only the shopping tally and its sort are modelled.
- The random generators: `random.gauss`, `random.random`, `random.sample` and `random.choice` become draw values passed in. Their distributions are not modelled. `random.sample` takes the `pick(j)`-th of the remaining candidates, reduced modulo their number.
- Candidates: a readmission draw is read for every position in the pool. Python calls `random.random()` only for names already used, which changes which draws are consumed but not the possible results.
- Floating point: calorie and macro values are exact reals, so rounding of sums and of the division by the meal count is not modelled. `int(random.gauss(...))` is given as the integer `kRaw`.
- Text.Lower: lower-cases only the ASCII letters A-Z. Python's `str.lower` also maps non-ASCII letters.
- Plan.Prefs: the meal count is a `nat`. A negative meal count, which the interface cannot produce, is not modelled.
- Composer.DayScore: its own contract states only that the total is non-negative. The loop that sums it is tied to it exactly by `RunTrialLoop`'s invariant and `RunMeals`'s ensures.
- Per-slot weight tables for splitting the daily targets are not used by `app.py`, which divides them evenly across meals, and are not modelled.
