# OKR tracker: a verified model of the progress engine and the page handlers

This project models the logic of a single-page OKR (objectives and key
results) tracker. Each objective carries a list of key results, and each key
result has a target, a current value and an optional history of progress
updates. The model covers:

- **Progress rollup** (`Progress`, progress.dfy). An objective's progress is
  the average of its key results' percentages `current / target * 100`,
  rounded the way JavaScript's `Math.round` rounds (floor of x + 1/2). It is 0
  for an objective without key results. It is capped at 100 unless
  overachievement is allowed, and the capped mode is the default.
- **Status badge** (`Status`, status.dfy). A first-match ladder maps a
  progress value to one of five bands: Overachieved, On Track, In Progress,
  At Risk and Off Track.
- **Filter engine and chart adapter** (`Filters`, filters.dfy). The dashboard
  shows the objectives that pass four tests:
  - a case-insensitive search in the title or the description;
  - a category;
  - a status band, computed on the uncapped progress;
  - an overlap of the objective's dates with a date range. A missing start
    counts as 2000-01-01 and a missing end as 2099-12-31.
  The chart receives one entry per shown objective. Each entry has a name cut
  to 20 characters plus "...", the full title, the uncapped progress, the
  number of key results and a category that defaults to "Uncategorized".
- **Page state and handlers** (`Tracker`, tracker.dfy). A class holds the
  page's state:
  - the collection;
  - the objective draft and the key-result draft;
  - the edit mode and the edit index;
  - the four filter fields.
  Its methods are the handlers that save, edit and delete objectives, add and
  remove key results on the draft, record progress on a key result, reset the
  filters and restore the saved collection.
- **Per-card derivations** (`ObjectiveCard`, objective_list.dfy). For each
  listed objective, the model derives:
  - its position in the full collection;
  - each key result's percentage;
  - the bar widths;
  - the text and bar colours;
  - the completion icon;
  - the history preview, newest first and at most five entries.

Supporting modules:
- `Model` (model.dfy) holds the data types and JavaScript's `splice(i, 1)`.
- `Text` (text.dfy) holds ASCII `toLowerCase`, `trim` and `includes`.

Dates are `Date(year, month, day)` values ordered lexicographically. This is
the order of the `YYYY-MM-DD` strings the page stores. Text is `seq<char>`.
A missing category or date is the empty string or `None`; JavaScript treats
both as falsy.

A saved blob that does not parse leaves the collection as it is, which at
start-up is the empty collection; `Tracker.Tracker.Load` does the same.

## Model

| member | source | states |
|---|---|---|
| Model.Splice | src/app/page.js:205-209 | `splice(i, 1)` on a copy: when i is in range, the length drops by one, elements before i stay and elements after i shift down by one; when i is out of range, nothing changes |
| Text.Lower | src/app/page.js:110-112 | lowering keeps the length and lowers each ASCII letter, character by character |
| Text.LowerIdempotent | src/app/page.js:110-112 | lowering a lowered string changes nothing, so the lowered term is a fixed key |
| Text.TrimStart | src/app/page.js:148 | the result is a suffix that starts with a non-space character or is empty, and everything dropped is white space |
| Text.TrimEnd | src/app/page.js:148 | the result is a prefix that ends with a non-space character or is empty, and everything dropped is white space |
| Text.IsBlank | src/app/page.js:148 | a title is blank when every character is white space; `Text.BlankIffTrimmedEmpty` ties this to `trim() === ''` (the same test at line 178) |
| Text.BlankIffTrimmedEmpty | src/app/page.js:148 | `title.trim() === ''` holds exactly when every character of the title is white space |
| Text.Contains | src/app/page.js:111-112 | `includes` is true exactly when the term occurs at some offset; the empty term occurs everywhere |
| Progress.Round | src/utils/helpers.js:12 | `Math.round` gives the integer within half a unit of x, with halves rounded up |
| Progress.Ratio | src/utils/helpers.js:8 | a key result's percentage p satisfies p * target == 100 * current, which is `current / target * 100` exactly |
| Progress.Total | src/utils/helpers.js:6-10 | the `reduce` from 0 that adds each key result's percentage, left to right; `Progress.TotalRemove` and `Progress.TotalPermutation` state what it computes |
| Progress.ObjectiveProgress | src/utils/helpers.js:3-15 | no key results give 0; with overachievement allowed the result is the nearest integer to the mean percentage; without it the result is at most 100 |
| Progress.CappedIsMinOfUncapped | src/utils/helpers.js:14 | the capped result is min(uncapped, 100), and the default mode is the capped one |
| Progress.TotalRemove | src/utils/helpers.js:6-10 | taking one key result out of the sum subtracts exactly its percentage |
| Progress.TotalPermutation | src/utils/helpers.js:6-10 | the reduced sum depends only on the multiset of key results |
| Progress.ProgressPermutationInvariant | src/utils/helpers.js:6-14 | reordering the key results leaves the progress unchanged in both modes |
| Progress.TotalNonNegative | src/utils/helpers.js:6-10 | with no negative current value the sum is non-negative |
| Progress.ProgressNonNegative | src/utils/helpers.js:6-14 | with every current at least 0 and every target positive, progress is at least 0 in both modes |
| Progress.TotalAtMostHundredEach | src/utils/helpers.js:6-10 | when no key result exceeds its target, the sum is at most 100 per key result |
| Progress.ModesAgreeWithoutOverachievement | src/utils/helpers.js:12-14 | when no key result exceeds its target, the cap never applies and both modes agree |
| Progress.MixedScenario | src/utils/helpers.js:3-15 | key results at 50% and 150% give exactly 100 in both modes |
| Progress.OverachievedScenario | src/utils/helpers.js:3-15 | one key result at 200% gives 200 uncapped and 100 capped |
| Status.Classify | src/components/ui/StatusBadge.js:5-20 | the first-match ladder as five disjoint intervals that cover every value: above 100, 80 to 100, 50 to 79, 25 to 49, below 25 |
| Status.Badge | src/components/ui/StatusBadge.js:5-20 | the badge shows one of the five labels with that band's colours; each label is fixed to its interval: "Overachieved" exactly above 100, "On Track" exactly from 80 to 100, "In Progress" exactly from 50 to 79, "At Risk" exactly from 25 to 49, and "Off Track" exactly below 25, including negative values |
| Status.LabelsDistinct | src/components/ui/StatusBadge.js:5-20 | the five labels are pairwise different, so a label names one band |
| Status.ClassifyMonotone | src/components/ui/StatusBadge.js:5-20 | a larger progress never falls into a lower band |
| Status.ClassifyBoundaries | src/components/ui/StatusBadge.js:5-20 | 101 is Overachieved and 100 On Track; 80 is On Track and 79 In Progress; 50 is In Progress and 49 At Risk; 25 is At Risk and 24 Off Track; -1 is Off Track |
| Filters.Select | src/app/page.js:108 | `filter` returns elements of the input that pass, and every element that passes appears |
| Filters.SelectedIndices | src/app/page.js:108 | the positions that pass, strictly increasing, each one present exactly when its element passes |
| Filters.SelectIsSubsequence | src/app/page.js:108 | the filtered list is the input at the passing positions, in order |
| Filters.SelectAll | src/app/page.js:108 | when every element passes, `filter` returns the whole input |
| Filters.FilterObjectives | src/app/page.js:107-144 | every shown objective is in the collection and passes all four tests; every objective that passes is shown |
| Filters.KeptIndices | src/app/page.js:108-143 | the positions of the shown objectives, strictly increasing; a position is listed exactly when its objective passes all four tests |
| Filters.FilterIsKeptSubsequence | src/app/page.js:108-143 | the shown list is an order-preserving subsequence: exactly the objectives at the kept positions, in order |
| Filters.NoConstraintsKeepsAll | src/app/page.js:108-142 | with no search, category "All", status "All" and a range that every objective overlaps, every objective is shown in its order |
| Filters.MatchesSearch | src/app/page.js:110-112 | an empty term matches; otherwise the lowered term must occur at some offset of the lowered title or the lowered description |
| Filters.MatchesCategory | src/app/page.js:115 | the category filter "All" matches every objective; any other value matches the objectives of exactly that category |
| Filters.MatchesStatus | src/app/page.js:118-131 | a status value naming a band matches exactly the progress values the badge ladder puts in that band; a value naming no band matches everything |
| Filters.StartOrDefault | src/app/page.js:134 | a missing start date counts as 2000-01-01; a present one is kept |
| Filters.EndOrDefault | src/app/page.js:135 | a missing end date counts as 2099-12-31; a present one is kept |
| Filters.MatchesDateRange | src/app/page.js:134-140 | the objective's period, with the default dates, starts no later than the range's end and ends no earlier than the range's start |
| Filters.Keep | src/app/page.js:108-142 | an objective is kept when the search, category, status and date tests all hold |
| Filters.AllStatusMatches | src/app/page.js:119-131 | the status filter's initial value "All" lets every progress value through |
| Filters.UnrecognisedStatusMatchesAll | src/app/page.js:119-131 | a status value that names no band lets every progress value through |
| Filters.StatusFilterAgreesWithBadge | src/app/page.js:118-131 | for each of the five bands, the status test on the uncapped progress holds exactly when the badge ladder gives that band |
| Filters.UndatedMatchesRange | src/app/page.js:134-140 | an objective with no dates overlaps every range that meets the years 2000 to 2099 |
| Filters.SearchIgnoresCase | src/app/page.js:110-112 | two search terms that differ only in letter case select the same objectives |
| Filters.SearchScenario | src/app/page.js:110-112 | "satisfaction" finds an objective described as "Customer Satisfaction" |
| Filters.ChartName | src/app/page.js:98 | a title of at most 20 characters is kept; a longer one becomes its first 20 characters plus "...", 23 characters in all |
| Filters.ChartData | src/app/page.js:97-103 | one entry per objective, same length and order |
| Filters.GetChartData | src/app/page.js:96-104 | one chart entry per filtered objective, in the filtered order |
| Filters.CategoryOrDefault | src/app/page.js:102 | a missing category becomes "Uncategorized", and a category that is set is kept |
| Filters.ChartEntryFields | src/app/page.js:97-103 | each entry holds the full title, the cut name, the uncapped progress (never below the capped one), the number of key results and a non-empty category that defaults to "Uncategorized" |
| Filters.ChartOfStatusFilter | src/app/page.js:96-131 | when the status filter names a band, every chart entry's progress lies in that band |
| Tracker.CoerceProgress | src/app/page.js:215 | the value floored at 0, with 0 for text that does not parse: a non-negative parsed value is kept; a negative or unparsable one gives 0 |
| Tracker.RecordProgress | src/app/page.js:215-227 | the title and target are kept; current becomes the coerced value; the history is created if absent, keeps its entries and gains exactly one entry (today, new current) at the end |
| Tracker.RepeatedValueStillRecorded | src/app/page.js:215-227 | re-entering the current value still appends a history entry |
| Tracker.Tracker.constructor | src/app/page.js:53-74 | the initial state: no objectives, blank drafts (category "Business", today to three months on, key-result target 100), not editing, no search, category and status "All", the current year as the range |
| Tracker.Tracker.Load | src/app/page.js:249-258 | a parsed blob replaces the collection; no blob or an unparsable one leaves it as it is; nothing else changes |
| Tracker.Tracker.SetNewObjective | src/app/page.js:296-297 | the form's edit replaces the objective draft only |
| Tracker.Tracker.SetNewKeyResult | src/app/page.js:298-299 | the form's edit replaces the key-result draft only |
| Tracker.Tracker.OpenBlankForm | src/components/layout/Navigation.js:16-26 | the "Add Objective" tab turns edit mode off and starts a blank draft, but keeps the edit index; nothing else changes |
| Tracker.Tracker.AddObjective | src/app/page.js:147-174 | a blank title changes nothing; in edit mode with an edit index, the draft replaces only that entry and edit mode ends; otherwise the draft is appended; then the draft is reset; the key-result draft and the filters are kept |
| Tracker.Tracker.AddKeyResult | src/app/page.js:177-187 | a blank title changes nothing; otherwise the key-result draft is appended to the objective draft and reset; nothing else changes |
| Tracker.Tracker.RemoveKeyResult | src/app/page.js:190-194 | exactly key result i leaves the draft, as `splice` removes it; nothing else changes |
| Tracker.Tracker.EditObjective | src/app/page.js:197-202 | the draft becomes objective i; edit mode is on with edit index i; the collection is kept |
| Tracker.Tracker.DeleteObjective | src/app/page.js:205-209 | exactly objective i leaves the collection, as `splice` removes it; the edit mode, edit index and drafts are left as they were |
| Tracker.Tracker.DeleteObjectiveKeepingEditTarget | src/app/page.js:205-209 | the corrected delete: it removes objective i as before; deleting the objective being edited ends edit mode and clears the index; deleting an earlier one moves the index down by one; a later or out-of-range index, or no index, is left as it was; otherwise edit mode is kept, and while it stays on the index still points at the same objective |
| Tracker.Tracker.UpdateKeyResult | src/app/page.js:212-230 | only key result k of objective i changes, and it changes as the progress record says; every other objective and key result, the drafts and the filters are kept |
| Tracker.Tracker.ResetFilters | src/app/page.js:233-241 | the search is cleared, category and status become "All", and the range becomes the given year; nothing else changes |
| Tracker.Tracker.FilteredObjectives | src/app/page.js:288 | the listed objectives are objectives of the collection that pass the page's four filter fields, and every objective that passes is listed |
| Tracker.Tracker.ChartView | src/app/page.js:287 | the chart data has one entry per listed objective, each built from that objective |
| Tracker.StaleEditIndexScenario | src/app/page.js:150-156 | the delete as written: edit the first of [a, b], delete it, and save the form again; the save overwrites b, leaving [a] |
| Tracker.KeptEditTargetScenario | src/app/page.js:150-159 | the same steps with the corrected delete leave [b, a] |
| ObjectiveCard.FindIndex | src/components/objectives/ObjectiveList.js:21 | `findIndex`: -1 exactly when the item is absent, otherwise the first position holding it |
| ObjectiveCard.ListedItemResolves | src/components/objectives/ObjectiveList.js:20-21 | every shown objective resolves to a valid position of the full collection that holds it, so edit, delete and update act on it |
| ObjectiveCard.CardProgress | src/components/objectives/ObjectiveList.js:22 | a card shows 0 for an objective without key results, and otherwise the nearest integer to the mean percentage, with no cap |
| ObjectiveCard.CardProgressCanExceedHundred | src/components/objectives/ObjectiveList.js:22 | a card computes progress with overachievement allowed, so it can show 200 |
| ObjectiveCard.KeyResultProgress | src/components/objectives/ObjectiveList.js:93 | a key result's percentage is the nearest integer to current / target * 100, with no cap |
| ObjectiveCard.SingleKeyResultCard | src/components/objectives/ObjectiveList.js:22 | an objective with one key result shows that key result's percentage |
| ObjectiveCard.KeyResultProgressNonNegative | src/components/objectives/ObjectiveList.js:93 | a non-negative current gives a non-negative percentage |
| ObjectiveCard.BarWidth | src/components/objectives/ObjectiveList.js:82 | the bar width is min(progress, 100): at most 100, and the progress itself when that is at most 100 (the same rule at line 132) |
| ObjectiveCard.CompletionIcon | src/components/objectives/ObjectiveList.js:99-101 | the check is shown exactly when the percentage is at least 100, and it is purple exactly above 100 |
| ObjectiveCard.CheckShownFromHalfPercentBelowTarget | src/components/objectives/ObjectiveList.js:93-101 | the check appears exactly when 200 * current >= 199 * target, that is from 99.5% of the target |
| ObjectiveCard.PurpleCheckIffOverachieved | src/components/objectives/ObjectiveList.js:99-100 | a purple check and the Overachieved badge mark the same percentages |
| ObjectiveCard.TextColor | src/components/objectives/ObjectiveList.js:65-71 | the percentage's text colour follows the badge ladder's band (the same ladder at lines 114-120) |
| ObjectiveCard.BarColor | src/components/objectives/ObjectiveList.js:75-81 | the bar colour follows the badge ladder's band (the same ladder at lines 125-131) |
| ObjectiveCard.Reverse | src/components/objectives/ObjectiveList.js:143 | `reverse` on a copy: the same length, with element k taken from position n - 1 - k |
| ObjectiveCard.HistoryPreview | src/components/objectives/ObjectiveList.js:137-143 | the preview exists exactly when there are at least two entries; it has min(5, n) entries, newest first; the history itself is a value and stays unchanged |
| ObjectiveCard.PreviewShowsLatestUpdate | src/components/objectives/ObjectiveList.js:137-143 | after a progress update on a key result with a history, the preview opens with that update |

## Left out

- Persistence: the save effect and the `localStorage` store are not modelled (`Tracker.Tracker.Load` takes the stored blob as a parameter). So is the order in which React runs the save and load effects at start-up.
- Tracker.Tracker.Load: it assumes that a parsed blob holds valid objectives; JSON that parses into anything else is not modelled.
- The clock and the JavaScript `Date` library (`new Date()`, `toISOString`, `setMonth`, time zones). Today, the date three months on and the current year are parameters; dates are ordered triples.
- Dates that `new Date` cannot parse (an Invalid Date makes both comparisons false). The model's dates are always valid.
- `parseInt` is not modelled as string parsing. A typed value is an `Option<int>`, with `None` for text that does not parse.
- Progress.Ratio: requires a positive target. A zero target gives Infinity or NaN in JavaScript. The form's `|| 100` fallback (src/components/objectives/ObjectiveForm.js:199) prevents a zero, but a negative target typed into the form is outside the model.
- Floating point: percentages are exact reals, so rounding at a half is exact where IEEE doubles may round differently.
- Text.Lower: only ASCII letters are lowered. Text.TrimStart and Text.TrimEnd treat only ASCII white space as space. Unicode case folding and Unicode white space are not modelled.
- ObjectiveCard.FindIndex: it finds the first structurally equal objective, where the code compares object references. The two differ only when the collection holds two identical objectives.
- Tracker.Tracker.UpdateKeyResult: it replaces the key result by value. The code mutates the shared key-result object in place, which a draft copied from it by a previous edit also sees. The same sharing reaches the collection itself: with objectives [a, b] and b open for editing, leaving the form by the Dashboard tab and deleting a leaves the edit index at 1; pressing "New Objective" and saving then stores a shallow copy of b at index 1, so both entries share one key-result array and a later progress update on entry 0 also changes entry 1. The model's "every other objective is kept" does not capture that aliasing.
- Tracker.Tracker.AddObjective: requires the edit index, when it is used, to be at most the collection's length. With the delete as written, the index can go further past the end, and the JavaScript store then leaves a hole in the array. The model has no sparse arrays. The corrected delete never lets the index go past the end.
- The active tab is not modelled. The Dashboard tab, the form's Cancel button and the dashboard's "New Objective" buttons only switch the tab. The navigation's "Add Objective" tab also turns edit mode off and starts a blank draft; it is modelled as `Tracker.Tracker.OpenBlankForm`.
- The form's timeframe buttons (src/components/objectives/ObjectiveForm.js:78-112) are not modelled. They set the draft's dates from the clock; `Tracker.Tracker.SetNewObjective` stands for any such edit of the draft.
- Rendering: JSX, Tailwind classes, icons and the recharts wrappers are not modelled. src/components/dashboard/ChartSection.js, src/components/dashboard/FilterSection.js, src/components/dashboard/Dashboard.js, src/components/objectives/ObjectiveForm.js and the layout components are not part of this model.
- The category list in src/constants/index.js is kept only as the constant `Model.CATEGORIES`; there is nothing about it to prove.

## Findings

| source | as written | input that shows it | evidently intended | confidence | as-written member | corrected member |
|---|---|---|---|---|---|---|
| src/app/page.js:205-209 | deleting an objective leaves `editMode` and `editIndex` as they were, so a stale index later points at a different objective | 1. With [a, b] saved, edit a (edit index 0). 2. Return to the dashboard by the Dashboard tab (src/components/layout/Navigation.js:10), which leaves edit mode on. 3. Delete a. 4. Press "New Objective" (src/components/dashboard/Dashboard.js:31), which does not reset edit mode. 5. Save. The save writes a's draft at index 0 and overwrites b, leaving [a]: b is lost and the deleted a is back | deleting the objective being edited ends edit mode, and deleting an earlier objective moves the edit index down by one, so a save still updates the objective that was opened | medium; not executed | Tracker.StaleEditIndexScenario | Tracker.Tracker.DeleteObjectiveKeepingEditTarget |
