# Diet tracker core, modelled in Dafny

This project models the server-side logic of a small PHP diet logger across its three pages:

- **Meal management** (`create.php`). A catalogue of meals, each with a name, protein, carbohydrate and fat grams, an optional colour tag and an optional description. Add and update check three things. The trimmed name must not be empty in PHP's sense, which also rejects the name "0". No macro may be negative. The name must not already be taken ignoring ASCII case, and update skips this check when the new name differs from the old one only in case. Failures return an ordered list of messages. Add appends. Update overwrites the first entry whose name is exactly the old name. Delete removes the first exact match. The page shows the catalogue sorted by `strcmp` on the names.
- **Daily log** (`index.php`). Logging a meal looks it up by name and creates today's date bucket if it is missing. It then appends a snapshot of the meal's name, macros and colour, with the colour defaulting to `blue`. Deleting works by position and does nothing for an index that is out of range. Today's totals are unrounded running sums.
- **Weekly report** (`report.php`). The week runs Monday to Sunday and is chosen by today's ISO weekday and a signed week offset. The page builds one record per day with totals rounded to hundredths, sums those rounded totals over the week, and counts the tracked days. It then takes averages over the tracked days only, and rounds the weekly totals last.

Modules:

- `Wrappers`: `Option`.
- `PhpStrings`: `trim`, `strtolower`, `empty` on strings, `strcmp`.
- `Nutrition`: `calculateKcal`, `round(x, 2)`, macro totals.
- `Meals`: the meal record and the shared first-match scan.
- `Catalogue`: the `MealCatalogue` class.
- `DailyLog`: the `MealLog` class.
- `WeeklyReport`: the report computation.

Both PHP documents are mutated in place, so each is a class whose field the handlers reassign. The catalogue is `seq<Meal>`. The log is `map<Day, DayBucket>`, and a bucket holds a date label and a `seq<Entry>`.

Modelling choices:

- **Dates.** A date is a day ordinal (`Day = int`), and ordinal 1 is Monday, 1 January of year 1, in the proleptic Gregorian calendar. A log key `Y-m-d` is represented by the ordinal of that date. "Today" and its ISO weekday are inputs, because they come from the clock in the source.
- **Numbers.** Macros are `real`. `round($x, 2)` is `Round2`, which rounds to the nearest hundredth with halves away from zero. `floatval` and `(int)` coercion of posted fields are replaced by typed parameters.
- **Strings.** Strings are `seq<char>`. `strcmp` compares characters by code point, which is the same as comparing UTF-8 bytes. `strtolower` changes only `A`–`Z`, as in PHP 8.2 and later.
- **Tracked days.** The report counts a day as tracked when its date key is present (`report.php:87`, `report.php:110`). This includes a date whose list is empty, as after deleting its last entry (`index.php:123-125`). `WeeklyReport.EmptyBucketIsTracked` states the consequence: such a day counts towards the divisor of the averages while contributing zero totals.
- **Loose comparison in the log.** `index.php:85` compares names with PHP's loose `==`, which treats two numeric strings as numbers (`"10" == "1e1"`). The model uses exact equality there, as it does for the strict `===` in `create.php`.
- **The display sort.** `usort` is modelled by an insertion sort (`Catalogue.SortedCopy`). Its contract is what `usort` guarantees as of PHP 8.0. The result is a permutation in ascending `strcmp` order, and the sort is stable: meals with equal names keep their relative order (`Catalogue.SameOrderPerName`).

## Model

| member | source | states |
|---|---|---|
| `PhpStrings.LeadingTrimCount` | create.php:49 | the count of leading characters `trim` removes: all of them are trim characters and the next one is not |
| `PhpStrings.TrailingTrimCount` | create.php:49 | the same for the trailing end |
| `PhpStrings.Trim` | create.php:49 | the result is the infix of the input left after dropping only trim characters at both ends, and it neither starts nor ends with one |
| `PhpStrings.TrimIdempotent` | create.php:127-128 | trimming again changes nothing |
| `PhpStrings.IsEmptyString` | create.php:57 | PHP `empty` on a string holds exactly for the empty string and the one-character string "0" |
| `PhpStrings.Lower` | create.php:68 | `strtolower` keeps the length and lower-cases each character on its own |
| `PhpStrings.StrCmp` | create.php:257-259 | `strcmp` returns -1, 0 or 1, and returns 0 exactly when the strings are equal |
| `PhpStrings.StrCmpAntisymmetric` | create.php:257-259 | swapping the arguments flips the sign of `strcmp` |
| `PhpStrings.StrCmpTransitive` | create.php:257-259 | the order `strcmp` induces is transitive |
| `Nutrition.Kcal` | create.php:35-38 | for non-negative macros the kcal value lies between 4 and 9 times the total grams |
| `Nutrition.KcalAdditive` | report.php:91-96 | kcal is additive: the kcal of summed macros equals the sum of the kcals |
| `Nutrition.SeedMealsKcal` | create.php:12-27 | the seed Oatmeal (10, 50, 5) gives 285 kcal and Chicken Salad (30, 15, 18) gives 342 |
| `Nutrition.Round2` | report.php:100-103 | `round(x, 2)` gives a whole number of hundredths within 0.005 of x, keeps the sign, and leaves a value that is already hundredths unchanged. An exact half rounds away from zero: the bound is strict on the side towards zero, so the result is unique |
| `Nutrition.CentsAdd` | report.php:105-109 | a sum of two whole-hundredth values is whole hundredths |
| `Nutrition.RoundTotals` | report.php:125-128 | rounding every total field gives whole hundredths and leaves already-rounded totals unchanged |
| `Nutrition.AllCentsPlus` | report.php:105-109 | adding two rounded totals gives rounded totals |
| `Meals.FirstIndexOf` | create.php:163-176 | the index of the first meal with exactly this name: none exactly when no meal has it; otherwise an in-range index holding the name, with no earlier match |
| `Meals.FindFirst` | create.php:218-223 | the `foreach … break` scan returns exactly `FirstIndexOf` |
| `Catalogue.ErrorList` | create.php:56-76 | errors come in a fixed order (name, then negative macros, then duplicate). The list holds only the three rule messages, its length is the number of violated rules, and it has no repeats, so there is one negative-macro message however many macros are negative. The list is empty exactly when all rules pass |
| `Catalogue.AppendKeepsCaseUnique` | create.php:78-89 | appending a meal whose name is not taken, ignoring case, keeps the catalogue free of names that are equal ignoring case |
| `Catalogue.ReplaceKeepsCaseUnique` | create.php:145-176 | overwriting an entry with a name that is its old name up to case, or a name not taken, keeps names unique ignoring case |
| `Catalogue.RemoveKeepsCaseUnique` | create.php:218-226 | removing an entry keeps names unique ignoring case |
| `Catalogue.InsertKeepsSorted` | create.php:257-259 | inserting a meal after every name that sorts no later than it keeps the list sorted |
| `Catalogue.MealCatalogue.HasNameIgnoringCase` | create.php:65-72 | the duplicate scan answers true exactly when some stored name equals the given name ignoring case |
| `Catalogue.MealCatalogue.ValidateAdd` | create.php:55-76 | the add errors are `ErrorList` of: empty name by PHP `empty` (so "" and "0"), any negative macro, and a name taken ignoring case |
| `Catalogue.MealCatalogue.ValidateUpdate` | create.php:134-157 | as for add, except that the duplicate check is skipped when the old and new names are equal ignoring case, so a case-only rename passes |
| `Catalogue.MealCatalogue.Add` | create.php:48-92 | the name and description are trimmed, and the description defaults to "". On success exactly one meal is appended and earlier entries are unchanged. On any error the catalogue is unchanged. Names unique ignoring case stay unique |
| `Catalogue.MealCatalogue.Update` | create.php:126-176 | on success the first entry named exactly the trimmed old name is overwritten at its index and the length is kept. With no match, or on any error, nothing changes. Names unique ignoring case stay unique |
| `Catalogue.MealCatalogue.Delete` | create.php:214-226 | removes the first entry whose name is exactly the untrimmed posted name and keeps the order of the rest. The length drops by one exactly when there was a match. Names stay unique ignoring case |
| `Catalogue.MealCatalogue.SortByName` | create.php:256-259 | the catalogue becomes a permutation of itself in ascending `strcmp` order of names, and meals with equal names keep their relative order |
| `Catalogue.SortedCopy` | create.php:257-259 | the sort returns a permutation of its input in ascending `strcmp` order, and it is stable: for every name, the meals with that name appear in the same order as in the input |
| `Catalogue.InsertByName` | create.php:257-259 | one insertion step keeps the list sorted and adds exactly the one meal to its multiset. The meal goes behind every meal of the same name |
| `Catalogue.WithNameConcat` | create.php:257-259 | selecting the meals of one name distributes over concatenation |
| `Catalogue.WithNameNone` | create.php:257-259 | a list with no meal of a name selects nothing for it |
| `Catalogue.NoEqualNameAfter` | create.php:257-259 | in a sorted list, no meal from the first name sorting after m onwards has m's name |
| `Catalogue.InsertKeepsOrderPerName` | create.php:257-259 | inserting m in front of a suffix without m's name only appends m to the selection of its name and leaves every other selection alone |
| `DailyLog.Snapshot` | index.php:100-106 | the logged entry copies the meal's name and macros, takes its colour or "blue" when it has none, and carries the meal's kcal |
| `DailyLog.Sum` | index.php:144-150 | the running sums: the summed per-entry kcal equals the kcal of the summed protein, carbs and fat |
| `DailyLog.SumNonNegative` | index.php:144-150 | entries with no negative macro have non-negative sums in every field |
| `DailyLog.SumConcat` | index.php:144-150 | the sum over two lists laid end to end is the sum of their sums |
| `DailyLog.SumWithout` | index.php:123-125 | removing the entry at a position takes exactly that entry's contribution out of the totals |
| `DailyLog.SumEntries` | index.php:139-150 | the totals loop gives the unrounded sums over all entries, with kcal equal to the kcal of the summed macros, and zeros for no entries |
| `DailyLog.MealLog.AddMeal` | index.php:77-106 | with no exact name match (first match wins) the log is unchanged. Otherwise today's bucket is created with its label only when absent. An existing label is kept. Exactly one snapshot (name, macros, colour defaulting to "blue", no description) is appended, and no other date changes |
| `DailyLog.MealLog.DeleteAt` | index.php:118-129 | with an existing bucket and an in-range index, exactly that entry is removed, later entries shift down, and the date stays present even when emptied. Otherwise nothing changes. The totals drop by exactly the removed entry |
| `DailyLog.MealLog.TodayTotals` | index.php:136-150 | today's totals are the unrounded sums over today's entries, all zero when today has no bucket |
| `WeeklyReport.IsoWeekday` | report.php:34 | the ISO weekday of a day ordinal is between 1 and 7 |
| `WeeklyReport.WeekStartOf` | report.php:33-46 | for a weekday between 1 and 7, the window start is at most six days before today + 7·offset, and not after it |
| `WeeklyReport.WeekStartIsMonday` | report.php:33-46 | when the weekday given is today's, the window start is a Monday for every offset |
| `WeeklyReport.WeekStartUnique` | report.php:33-48 | the window start is the only Monday at most six days before today + 7·offset, so the window is that day's ISO week |
| `WeeklyReport.PreviousWeek` | report.php:44-46 | the window for offset k − 1 starts exactly 7 days before the window for offset k |
| `WeeklyReport.DayReportOf` | report.php:75-103 | the day record carries its own date, and its totals are whole hundredths |
| `WeeklyReport.DayReportMeaning` | report.php:75-103 | a day's record holds the date's entries (none for a missing key) and their sums rounded to hundredths. Its kcal is the rounded kcal of the summed macros. A missing date has all-zero totals |
| `WeeklyReport.Records` | report.php:69-73 | the window's records are one per day |
| `WeeklyReport.RecordsAt` | report.php:113 | record k is the record of date start + k |
| `WeeklyReport.Tracked` | report.php:87 | the tracked count of n days is at most n |
| `WeeklyReport.TrackedIsKeyCount` | report.php:87 | the tracked count is the number of window dates whose key is present in the log, whether or not the list is empty |
| `WeeklyReport.EmptyBucketIsTracked` | report.php:86-110 | a present date with an empty list counts as tracked and contributes zero totals |
| `WeeklyReport.TrackedSums` | report.php:105-109 | the weekly running sums, taken over rounded day totals, are whole hundredths |
| `WeeklyReport.WindowStep` | report.php:87-110 | extending the window by one date adds one to the count and that date's rounded totals to the sums exactly when its key is present |
| `WeeklyReport.CollectStep` | report.php:69-113 | one pass of the loop appends the date's record and, exactly when the key is present, adds one to the count and the date's rounded totals to the sums |
| `WeeklyReport.UntrackedWeekSumsToZero` | report.php:54-66 | with no tracked date, the weekly sums stay zero |
| `WeeklyReport.DayRecord` | report.php:75-103 | one pass of the day loop builds exactly the day's record |
| `WeeklyReport.WeekWindow` | report.php:30-48 | start = today − (weekday − 1) + 7·offset and end = start + 6. The window contains today + 7·offset, and start is a Monday when the weekday is today's |
| `WeeklyReport.CollectWeek` | report.php:68-114 | the 7-day loop yields the seven records in date order, the tracked count and the sums of rounded day totals |
| `WeeklyReport.Summarize` | report.php:116-128 | averages are `round(sum / daysTracked, 2)` and stay zero when `daysTracked` is 0. The totals are rounded last, which leaves sums of rounded days unchanged |
| `WeeklyReport.Report` | report.php:27-128 | the report is the window above with exactly 7 records, one per date in order. `daysTracked` is the number of present date keys, between 0 and 7. The weekly totals equal the sums of the rounded day totals. Averages are taken over tracked days, and a week with none has zero totals and zero averages |

## Left out

- Reading, seeding and writing the JSON files is not modelled: `mkdir`, `file_get_contents`/`file_put_contents`, `json_encode`/`json_decode`, the seed catalogues, and the report's "No data available" exit. The catalogue and the log are values passed in and read back from the object.
- HTTP plumbing is not modelled: `$_POST`/`$_GET` parsing, AJAX detection, headers, redirects and JSON responses (including the updated meal and the count echoed after a delete). Numeric coercion of posted fields is replaced by typed parameters.
- The HTML and client-side JavaScript are not modelled, including the `Math.round` kcal preview, the per-meal kcal and rounded macros the report shows, and the colour-to-CSS mapping.
- `DateTime` is not modelled. Today's date and its ISO weekday are inputs. The `'D d/m'` bucket label is an input string. The `'Y-m-d'` key and the `'d/m/Y'` range labels are represented by day ordinals.
- IEEE-754 double precision is not modelled. Sums and `round()` are exact over the reals, so rounding the weekly totals a second time provably changes nothing here, although it could with doubles.
- `sort.js` (a client-side table sorter) and `manifest.php` (a static web-app manifest) are not part of this model.
- Concurrent requests are not modelled. The source has no locking, and each handler here runs alone on its document.
- `Catalogue.MealCatalogue.SortByName`: zend_sort's hybrid algorithm is replaced by an insertion sort. The result (sorted, a permutation, stable) is claimed, but not the order in which comparisons are made.
