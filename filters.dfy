/** The dashboard's filter engine (`getFilteredObjectives`) and chart adapter
    (`getChartData`): pure functions of the objective collection and the filter
    state. */
module Filters {
  import opened Model
  import opened Text
  import opened Progress
  import opened Status

  const ALL: string := "All"
  const UNCATEGORIZED: string := "Uncategorized"

  /** The dates assumed for an objective without a start or an end date. */
  const EARLIEST: Date := Date(2000, 1, 1)
  const LATEST: Date := Date(2099, 12, 31)

  /** Longest chart name kept before it is cut and marked with "...". */
  const NAME_LIMIT: nat := 20

  datatype DateRange = DateRange(start: Date, end: Date)

  datatype FilterState = FilterState(searchTerm: string, category: string, status: string, dateRange: DateRange)

  /** The filters after a reset: no search, every category and status, and the
      whole of the given calendar year. */
  function YearRange(year: int): DateRange {
    DateRange(Date(year, 1, 1), Date(year, 12, 31))
  }

  /** Case-insensitive search in the title or the description; an empty term
      matches everything. */
  predicate MatchesSearch(term: string, o: Objective): (r: bool)
    ensures term == [] ==> r
    ensures r <==> term == [] ||
                   (exists i :: OccursAt(Lower(o.title), Lower(term), i)) ||
                   (exists i :: OccursAt(Lower(o.description), Lower(term), i))
  {
    term == "" ||
    Contains(Lower(o.title), Lower(term)) ||
    Contains(Lower(o.description), Lower(term))
  }

  predicate MatchesCategory(category: string, o: Objective) {
    category == ALL || o.category == category
  }

  /** The status filter's own chain of tests on the uncapped progress. A value
      that names a band lets through exactly that band of the badge ladder; a
      value that names no band, such as "All", lets every objective through. */
  predicate MatchesStatus(status: string, progress: int): (r: bool)
    ensures forall b: Band :: status == Label(b) ==> (r <==> Classify(progress) == b)
    ensures (forall b: Band :: status != Label(b)) ==> r
  {
    LabelsDistinct();
    assert Label(OnTrack) == "On Track" && Label(AtRisk) == "At Risk" && Label(OffTrack) == "Off Track";
    assert Label(Overachieved) == "Overachieved" && Label(InProgress) == "In Progress";
    if status == "On Track" then progress >= 80 && progress <= 100
    else if status == "At Risk" then progress >= 25 && progress < 50
    else if status == "Off Track" then progress < 25
    else if status == "Overachieved" then progress > 100
    else if status == "In Progress" then progress >= 50 && progress < 80
    else true
  }

  /** `obj.startDate || '2000-01-01'` */
  function StartOrDefault(o: Objective): (d: Date)
    ensures o.startDate.None? ==> d == EARLIEST
    ensures o.startDate.Some? ==> d == o.startDate.value
  {
    o.startDate.GetOr(EARLIEST)
  }

  /** `obj.endDate || '2099-12-31'` */
  function EndOrDefault(o: Objective): (d: Date)
    ensures o.endDate.None? ==> d == LATEST
    ensures o.endDate.Some? ==> d == o.endDate.value
  {
    o.endDate.GetOr(LATEST)
  }

  /** The objective's period overlaps the filter's period. */
  predicate MatchesDateRange(range: DateRange, o: Objective) {
    DateLe(StartOrDefault(o), range.end) && DateLe(range.start, EndOrDefault(o))
  }

  /** The four tests an objective must all pass to be shown. */
  predicate Keep(f: FilterState, o: Objective)
    requires ValidObjective(o)
  {
    && MatchesSearch(f.searchTerm, o)
    && MatchesCategory(f.category, o)
    && MatchesStatus(f.status, ObjectiveProgress(o.keyResults, true))
    && MatchesDateRange(f.dateRange, o)
  }

  /** `Array.prototype.filter`: the elements that pass `p`, in their order. */
  function Select<T>(s: seq<T>, p: T -> bool): (r: seq<T>)
    ensures |r| <= |s|
    ensures forall k :: 0 <= k < |r| ==> r[k] in s && p(r[k])
    ensures forall i :: 0 <= i < |s| && p(s[i]) ==> s[i] in r
    decreases |s|
  {
    if |s| == 0 then []
    else
      var n := |s| - 1;
      var prefix := Select(s[..n], p);
      assert forall i :: 0 <= i < n ==> s[..n][i] == s[i];
      if p(s[n]) then prefix + [s[n]] else prefix
  }

  /** The positions of the elements that pass `p`, in increasing order. */
  function SelectedIndices<T>(s: seq<T>, p: T -> bool): (idx: seq<nat>)
    ensures forall k :: 0 <= k < |idx| ==> idx[k] < |s|
    ensures forall j, k :: 0 <= j < k < |idx| ==> idx[j] < idx[k]
    ensures forall i :: 0 <= i < |s| ==> (i in idx <==> p(s[i]))
    decreases |s|
  {
    if |s| == 0 then []
    else
      var n := |s| - 1;
      var prefix := SelectedIndices(s[..n], p);
      assert forall i :: 0 <= i < n ==> s[..n][i] == s[i];
      if p(s[n]) then prefix + [n] else prefix
  }

  /** The selection is exactly the elements at the selected positions, in
      order. */
  lemma {:induction false} SelectIsSubsequence<T>(s: seq<T>, p: T -> bool)
    ensures |Select(s, p)| == |SelectedIndices(s, p)|
    ensures forall k :: 0 <= k < |SelectedIndices(s, p)| ==> Select(s, p)[k] == s[SelectedIndices(s, p)[k]]
    decreases |s|
  {
    if |s| > 0 {
      var n := |s| - 1;
      SelectIsSubsequence(s[..n], p);
    }
  }

  /** The dashboard's test as a predicate on objectives. */
  function Passes(f: FilterState): Objective -> bool {
    o => ValidObjective(o) && Keep(f, o)
  }

  /** `getFilteredObjectives`: the objectives that pass, in their order. */
  function FilterObjectives(objs: seq<Objective>, f: FilterState): (r: seq<Objective>)
    requires ValidObjectives(objs)
    ensures |r| <= |objs|
    ensures ValidObjectives(r)
    ensures forall k :: 0 <= k < |r| ==> r[k] in objs && Keep(f, r[k])
    ensures forall i :: 0 <= i < |objs| && Keep(f, objs[i]) ==> objs[i] in r
  {
    Select(objs, Passes(f))
  }

  /** The positions of the objectives that pass, in increasing order. */
  function KeptIndices(objs: seq<Objective>, f: FilterState): (idx: seq<nat>)
    requires ValidObjectives(objs)
    ensures forall k :: 0 <= k < |idx| ==> idx[k] < |objs|
    ensures forall j, k :: 0 <= j < k < |idx| ==> idx[j] < idx[k]
    ensures forall i :: 0 <= i < |objs| ==> (i in idx <==> Keep(f, objs[i]))
  {
    SelectedIndices(objs, Passes(f))
  }

  /** The filtered list is exactly the objectives at the kept positions, in
      order: an order-preserving subsequence holding every objective that
      passes and no other. */
  lemma FilterIsKeptSubsequence(objs: seq<Objective>, f: FilterState)
    requires ValidObjectives(objs)
    ensures |FilterObjectives(objs, f)| == |KeptIndices(objs, f)|
    ensures forall k :: 0 <= k < |KeptIndices(objs, f)| ==>
              FilterObjectives(objs, f)[k] == objs[KeptIndices(objs, f)[k]]
  {
    SelectIsSubsequence(objs, Passes(f));
  }

  /** When every element passes, the selection is the whole sequence. */
  lemma {:induction false} SelectAll<T>(s: seq<T>, p: T -> bool)
    requires forall i :: 0 <= i < |s| ==> p(s[i])
    ensures Select(s, p) == s
    decreases |s|
  {
    if |s| > 0 {
      var n := |s| - 1;
      SelectAll(s[..n], p);
      assert s[..n] + [s[n]] == s;
    }
  }

  /** With no search, every category, every status and a period that every
      objective overlaps, nothing is filtered out and the order is kept. */
  lemma NoConstraintsKeepsAll(objs: seq<Objective>, range: DateRange)
    requires ValidObjectives(objs)
    requires forall i :: 0 <= i < |objs| ==> MatchesDateRange(range, objs[i])
    ensures FilterObjectives(objs, FilterState("", ALL, ALL, range)) == objs
  {
    var f := FilterState("", ALL, ALL, range);
    forall i | 0 <= i < |objs| ensures Passes(f)(objs[i]) {
      AllStatusMatches(ObjectiveProgress(objs[i].keyResults, true));
    }
    SelectAll(objs, Passes(f));
  }

  /** The status filter's initial value, "All", filters nothing out. */
  lemma AllStatusMatches(progress: int)
    ensures MatchesStatus(ALL, progress)
  {
    UnrecognisedStatusMatchesAll(ALL, progress);
  }

  /** An objective without dates overlaps every period that meets the years
      2000 to 2099. */
  lemma UndatedMatchesRange(o: Objective, range: DateRange)
    requires o.startDate == None && o.endDate == None
    requires DateLe(EARLIEST, range.end) && DateLe(range.start, LATEST)
    ensures MatchesDateRange(range, o)
  {
  }

  /** For each of the five bands, the status filter lets an objective through
      exactly when the badge ladder gives it that band; the filter's upper
      bound of 100 on "On Track" coincides with the ladder's first test. */
  lemma StatusFilterAgreesWithBadge(b: Band, progress: int)
    ensures MatchesStatus(Label(b), progress) <==> Classify(progress) == b
  {
    LabelsDistinct();
  }

  /** "All", and any value that names no band, filters nothing out. */
  lemma UnrecognisedStatusMatchesAll(status: string, progress: int)
    requires forall b: Band :: status != Label(b)
    ensures MatchesStatus(status, progress)
  {
    assert status != Label(OnTrack) && status != Label(AtRisk) && status != Label(OffTrack);
    assert status != Label(Overachieved) && status != Label(InProgress);
  }

  /** A search term and any re-casing of it select the same objectives. */
  lemma SearchIgnoresCase(term: string, term': string, o: Objective)
    requires SameIgnoringCase(term, term')
    ensures MatchesSearch(term, o) <==> MatchesSearch(term', o)
  {
    assert |term| == |Lower(term)| == |Lower(term')| == |term'|;
  }

  /** "satisfaction" finds an objective whose description says
      "Customer Satisfaction". */
  lemma SearchScenario(o: Objective)
    requires o.description == "Customer Satisfaction"
    ensures MatchesSearch("satisfaction", o)
  {
    var d := Lower(o.description);
    assert d[9..21] == "satisfaction";
    assert OccursAt(d, Lower("satisfaction"), 9);
  }

  // Chart adapter

  datatype ChartEntry = ChartEntry(name: string, fullName: string, progress: int, keyResults: nat, category: string)

  /** A title of at most 20 characters as it is, a longer one cut to 20
      characters and marked with "...". */
  function ChartName(title: string): (r: string)
    ensures |title| <= NAME_LIMIT ==> r == title
    ensures |title| > NAME_LIMIT ==> |r| == NAME_LIMIT + 3 && r == title[..NAME_LIMIT] + "..."
  {
    if |title| > NAME_LIMIT then title[..NAME_LIMIT] + "..." else title
  }

  /** `obj.category || 'Uncategorized'`: never empty, and a category that is
      set is kept. */
  function CategoryOrDefault(category: string): (c: string)
    ensures c != []
    ensures category == [] ==> c == UNCATEGORIZED
    ensures category != [] ==> c == category
  {
    if category == "" then UNCATEGORIZED else category
  }

  function ChartEntryOf(o: Objective): ChartEntry
    requires ValidObjective(o)
  {
    ChartEntry(ChartName(o.title), o.title, ObjectiveProgress(o.keyResults, true),
               |o.keyResults|, CategoryOrDefault(o.category))
  }

  /** One chart entry per objective, in the same order. */
  function ChartData(objs: seq<Objective>): (r: seq<ChartEntry>)
    requires ValidObjectives(objs)
    ensures |r| == |objs|
    ensures forall i :: 0 <= i < |objs| ==> r[i] == ChartEntryOf(objs[i])
  {
    seq(|objs|, i requires 0 <= i < |objs| => ChartEntryOf(objs[i]))
  }

  /** `getChartData`: the chart entries of the filtered objectives. */
  function GetChartData(objs: seq<Objective>, f: FilterState): (r: seq<ChartEntry>)
    requires ValidObjectives(objs)
    ensures |r| == |FilterObjectives(objs, f)|
    ensures forall k :: 0 <= k < |r| ==> r[k] == ChartEntryOf(FilterObjectives(objs, f)[k])
  {
    ChartData(FilterObjectives(objs, f))
  }

  /** Every chart entry carries its objective's full title, a name that is the
      title or its first 20 characters followed by "...", the uncapped
      progress, the number of key results, and a category that is never empty. */
  lemma ChartEntryFields(objs: seq<Objective>, i: nat)
    requires ValidObjectives(objs) && i < |objs|
    ensures var e := ChartData(objs)[i];
            && e.fullName == objs[i].title
            && |e.name| <= NAME_LIMIT + 3
            && (e.name == objs[i].title || (|objs[i].title| > NAME_LIMIT && e.name == objs[i].title[..NAME_LIMIT] + "..."))
            && e.progress == ObjectiveProgress(objs[i].keyResults, true)
            && e.progress >= ObjectiveProgress(objs[i].keyResults, false)
            && e.keyResults == |objs[i].keyResults|
            && e.category != ""
            && (objs[i].category == "" ==> e.category == UNCATEGORIZED)
            && (objs[i].category != "" ==> e.category == objs[i].category)
  {
    CappedIsMinOfUncapped(objs[i].keyResults);
  }

  /** When the status filter names a band, every chart entry's progress falls
      in that band. */
  lemma ChartOfStatusFilter(objs: seq<Objective>, f: FilterState, b: Band)
    requires ValidObjectives(objs)
    requires f.status == Label(b)
    ensures forall k :: 0 <= k < |GetChartData(objs, f)| ==> Classify(GetChartData(objs, f)[k].progress) == b
  {
    var r := FilterObjectives(objs, f);
    forall k | 0 <= k < |r| ensures Classify(ChartData(r)[k].progress) == b {
      StatusFilterAgreesWithBadge(b, ObjectiveProgress(r[k].keyResults, true));
    }
  }
}
