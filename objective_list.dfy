/** What the objective list derives for each card: the position of the item in
    the full collection, the key results' percentages, the bar widths, the
    colours, the completion icon and the history preview. */
module ObjectiveCard {
  import opened Model
  import opened Progress
  import opened Status
  import opened Filters
  import opened Tracker

  /** `objectives.findIndex(obj => obj === objective)`: the first position
      holding the item, or -1 when there is none. */
  function FindIndex(objs: seq<Objective>, o: Objective): (i: int)
    ensures -1 <= i < |objs|
    ensures i == -1 <==> o !in objs
    ensures i >= 0 ==> objs[i] == o && forall j :: 0 <= j < i ==> objs[j] != o
    decreases |objs|
  {
    if |objs| == 0 then -1
    else if objs[0] == o then 0
    else
      var k := FindIndex(objs[1..], o);
      if k == -1 then -1 else k + 1
  }

  /** Every listed item resolves to a valid position of the full collection
      holding that item, so edit, delete and update act on it. */
  lemma ListedItemResolves(objs: seq<Objective>, f: FilterState, k: nat)
    requires ValidObjectives(objs) && k < |FilterObjectives(objs, f)|
    ensures 0 <= FindIndex(objs, FilterObjectives(objs, f)[k]) < |objs|
    ensures objs[FindIndex(objs, FilterObjectives(objs, f)[k])] == FilterObjectives(objs, f)[k]
  {
  }

  /** The progress a card shows: overachievement allowed. */
  function CardProgress(o: Objective): (p: int)
    requires ValidObjective(o)
    ensures |o.keyResults| == 0 ==> p == 0
    ensures |o.keyResults| > 0 ==> p as real - 0.5 <= Mean(o.keyResults) < p as real + 0.5
  {
    ObjectiveProgress(o.keyResults, true)
  }

  /** A card can show more than 100%. */
  lemma CardProgressCanExceedHundred()
    ensures CardProgress(Objective("Grow", "", "Business", None, None, [KeyResult("Sales", 100, 200, None)])) == 200
  {
    OverachievedScenario();
  }

  /** A key result's percentage: current / target * 100 to the nearest
      integer, not capped. */
  function KeyResultProgress(kr: KeyResult): (p: int)
    requires ValidKeyResult(kr)
    ensures p as real - 0.5 <= Ratio(kr) < p as real + 0.5
  {
    Round(Ratio(kr))
  }

  /** An objective with a single key result shows that key result's
      percentage. */
  lemma SingleKeyResultCard(kr: KeyResult)
    requires ValidKeyResult(kr)
    ensures ObjectiveProgress([kr], true) == KeyResultProgress(kr)
  {
    assert Total([kr]) == Total([]) + Ratio(kr);
  }

  lemma KeyResultProgressNonNegative(kr: KeyResult)
    requires ValidKeyResult(kr) && kr.current >= 0
    ensures KeyResultProgress(kr) >= 0
  {
    assert kr.current as real / kr.target as real >= 0.0;
  }

  /** The filled part of a bar: the percentage, but never past the end. */
  function BarWidth(progress: int): (w: int)
    ensures w <= 100 && w <= progress
    ensures w == progress || w == 100
  {
    Min(progress, 100)
  }

  datatype Icon = OpenCircle | GreenCheck | PurpleCheck

  /** The mark beside a key result: a check once it reaches 100%, purple
      above 100%. */
  function CompletionIcon(krProgress: int): (i: Icon)
    ensures i != OpenCircle <==> krProgress >= 100
    ensures i == PurpleCheck <==> krProgress > 100
  {
    if krProgress >= 100 then (if krProgress > 100 then PurpleCheck else GreenCheck)
    else OpenCircle
  }

  /** For a positive divisor, a quotient reaches a bound exactly when the
      dividend reaches the bound times the divisor. */
  lemma QuotientAtLeast(c: real, t: real, k: real)
    requires t > 0.0
    ensures c / t >= k <==> c >= k * t
  {
    var q := c / t;
    assert q * t == c;
    assert (q - k) * t == c - k * t;
    if q >= k {
      assert (q - k) * t >= 0.0;
    } else {
      assert (k - q) * t > 0.0;
    }
  }

  /** The check appears once current reaches 99.5% of target, the point from
      which the percentage rounds to 100. */
  lemma CheckShownFromHalfPercentBelowTarget(kr: KeyResult)
    requires ValidKeyResult(kr)
    ensures CompletionIcon(KeyResultProgress(kr)) != OpenCircle <==> 200 * kr.current >= 199 * kr.target
  {
    var c, t := kr.current as real, kr.target as real;
    QuotientAtLeast(c, t, 0.995);
    assert Ratio(kr) == (c / t) * 100.0;
    assert KeyResultProgress(kr) >= 100 <==> Ratio(kr) >= 99.5;
    assert (200 * kr.current) as real == 200.0 * c && (199 * kr.target) as real == 199.0 * t;
  }

  /** A purple check and the Overachieved badge mark the same percentages. */
  lemma PurpleCheckIffOverachieved(krProgress: int)
    ensures CompletionIcon(krProgress) == PurpleCheck <==> Classify(krProgress) == Overachieved
  {
  }

  function TextColorOf(b: Band): string {
    match b
    case Overachieved => "text-purple-600"
    case OnTrack => "text-green-600"
    case InProgress => "text-blue-600"
    case AtRisk => "text-yellow-600"
    case OffTrack => "text-red-600"
  }

  function BarColorOf(b: Band): string {
    match b
    case Overachieved => "bg-purple-600"
    case OnTrack => "bg-green-600"
    case InProgress => "bg-blue-600"
    case AtRisk => "bg-yellow-600"
    case OffTrack => "bg-red-600"
  }

  /** The colour of a percentage's text, by the card's own ladder, which is
      the badge's ladder. */
  function TextColor(progress: int): (c: string)
    ensures c == TextColorOf(Classify(progress))
  {
    if progress > 100 then "text-purple-600"
    else if progress >= 80 then "text-green-600"
    else if progress >= 50 then "text-blue-600"
    else if progress >= 25 then "text-yellow-600"
    else "text-red-600"
  }

  /** The colour of a progress bar, by the same ladder. */
  function BarColor(progress: int): (c: string)
    ensures c == BarColorOf(Classify(progress))
  {
    if progress > 100 then "bg-purple-600"
    else if progress >= 80 then "bg-green-600"
    else if progress >= 50 then "bg-blue-600"
    else if progress >= 25 then "bg-yellow-600"
    else "bg-red-600"
  }

  /** Newest first. */
  function Reverse<T>(s: seq<T>): (r: seq<T>)
    ensures |r| == |s|
    ensures forall k :: 0 <= k < |s| ==> r[k] == s[|s| - 1 - k]
    decreases |s|
  {
    if |s| == 0 then [] else [s[|s| - 1]] + Reverse(s[..|s| - 1])
  }

  const PREVIEW_LIMIT: nat := 5

  /** The "View progress history" list: shown only when there are at least two
      entries, and then the newest five at most, newest first. */
  function HistoryPreview(history: Option<seq<HistoryEntry>>): (r: Option<seq<HistoryEntry>>)
    ensures r.Some? <==> history.Some? && |history.value| > 1
    ensures r.Some? ==> |r.value| == Min(PREVIEW_LIMIT, |history.value|)
    ensures r.Some? ==> forall k :: 0 <= k < |r.value| ==> r.value[k] == history.value[|history.value| - 1 - k]
  {
    if history.Some? && |history.value| > 1 then
      Some(Reverse(history.value)[..Min(PREVIEW_LIMIT, |history.value|)])
    else
      None
  }

  /** After a progress update on a key result that already had a history, the
      preview opens with that update. */
  lemma PreviewShowsLatestUpdate(kr: KeyResult, value: Option<int>, today: Date)
    requires |HistoryOf(kr)| >= 1
    ensures var p := HistoryPreview(RecordProgress(kr, value, today).history);
            p.Some? && p.value[0] == HistoryEntry(today, CoerceProgress(value))
  {
    var r := RecordProgress(kr, value, today);
    assert r.history.value == HistoryOf(r);
  }
}
