/** The tracker page's state and the handlers that change it. */
module Tracker {
  import opened Model
  import opened Text
  import opened Filters

  /** The key-result form after a reset: no title, target 100, current 0. */
  const BLANK_KEY_RESULT: KeyResult := KeyResult("", 100, 0, None)

  const DEFAULT_CATEGORY: string := "Business"

  /** The objective form after a reset; `today` and `threeMonthsOn` come from
      the clock. */
  function BlankDraft(today: Date, threeMonthsOn: Date): Objective {
    Objective("", "", DEFAULT_CATEGORY, Some(today), Some(threeMonthsOn), [])
  }

  /** What the saved blob holds when the page starts: nothing, text that does
      not parse, or a parsed collection. */
  datatype Stored = Absent | Unparsable | Parsed(saved: seq<Objective>)

  /** `Math.max(0, parseInt(value) || 0)`, where `None` is input that does not
      parse as an integer. */
  function CoerceProgress(value: Option<int>): (r: nat)
    ensures value.Some? && value.value >= 0 ==> r == value.value
    ensures value.None? || value.value < 0 ==> r == 0
  {
    if value.Some? then Max(0, value.value) else 0
  }

  /** One progress update of a key result on day `today`. */
  function RecordProgress(kr: KeyResult, value: Option<int>, today: Date): (r: KeyResult)
    ensures r.title == kr.title && r.target == kr.target
    ensures r.current == CoerceProgress(value)
    ensures r.history.Some?
    ensures |HistoryOf(r)| == |HistoryOf(kr)| + 1
    ensures HistoryOf(r)[..|HistoryOf(kr)|] == HistoryOf(kr)
    ensures HistoryOf(r)[|HistoryOf(kr)|] == HistoryEntry(today, r.current)
  {
    var v := CoerceProgress(value);
    kr.(current := v, history := Some(HistoryOf(kr) + [HistoryEntry(today, v)]))
  }

  /** Re-entering the value a key result already has still records an entry. */
  lemma RepeatedValueStillRecorded(kr: KeyResult, today: Date)
    requires kr.current >= 0
    ensures RecordProgress(kr, Some(kr.current), today).current == kr.current
    ensures |HistoryOf(RecordProgress(kr, Some(kr.current), today))| == |HistoryOf(kr)| + 1
  {
  }

  class Tracker {
    var objectives: seq<Objective>
    /** The objective form, also the draft of the objective being edited. */
    var newObjective: Objective
    var newKeyResult: KeyResult
    var editMode: bool
    var editIndex: Option<nat>
    var searchTerm: string
    var categoryFilter: string
    var statusFilter: string
    var dateRangeFilter: DateRange

    /** Every key result here and in the forms has a positive target. */
    ghost predicate Valid()
      reads this
    {
      ValidObjectives(objectives) && ValidObjective(newObjective) && ValidKeyResult(newKeyResult)
    }

    /** The four filter fields together. */
    function FilterFields(): FilterState
      reads this
    {
      FilterState(searchTerm, categoryFilter, statusFilter, dateRangeFilter)
    }

    /** The objectives the dashboard lists. */
    function FilteredObjectives(): (r: seq<Objective>)
      reads this
      requires Valid()
      ensures forall k :: 0 <= k < |r| ==> r[k] in objectives && Keep(FilterFields(), r[k])
      ensures forall i :: 0 <= i < |objectives| && Keep(FilterFields(), objectives[i]) ==> objectives[i] in r
    {
      FilterObjectives(objectives, FilterFields())
    }

    /** The data handed to the charts: one entry per listed objective. */
    function ChartView(): (r: seq<ChartEntry>)
      reads this
      requires Valid()
      ensures |r| == |FilteredObjectives()|
      ensures forall k :: 0 <= k < |r| ==> r[k] == ChartEntryOf(FilteredObjectives()[k])
    {
      GetChartData(objectives, FilterFields())
    }

    /** The page's initial state: no objectives, blank forms, filters on the
        current year. */
    constructor (today: Date, threeMonthsOn: Date, year: int)
      ensures Valid()
      ensures objectives == []
      ensures newObjective == BlankDraft(today, threeMonthsOn) && newKeyResult == BLANK_KEY_RESULT
      ensures !editMode && editIndex == None
      ensures FilterFields() == FilterState("", ALL, ALL, YearRange(year))
    {
      objectives := [];
      newObjective := BlankDraft(today, threeMonthsOn);
      newKeyResult := BLANK_KEY_RESULT;
      editMode := false;
      editIndex := None;
      searchTerm := "";
      categoryFilter := ALL;
      statusFilter := ALL;
      dateRangeFilter := YearRange(year);
    }

    /** Restores the saved collection; when nothing is saved or it does not
        parse, the collection stays as it is. */
    method Load(stored: Stored)
      requires Valid()
      requires stored.Parsed? ==> ValidObjectives(stored.saved)
      modifies this
      ensures Valid()
      ensures objectives == if stored.Parsed? then stored.saved else old(objectives)
      ensures newObjective == old(newObjective) && newKeyResult == old(newKeyResult)
      ensures editMode == old(editMode) && editIndex == old(editIndex) && FilterFields() == old(FilterFields())
    {
      if stored.Parsed? {
        objectives := stored.saved;
      }
    }

    /** The objective form's edits. */
    method SetNewObjective(draft: Objective)
      requires Valid() && ValidObjective(draft)
      modifies this
      ensures Valid()
      ensures newObjective == draft
      ensures objectives == old(objectives) && newKeyResult == old(newKeyResult)
      ensures editMode == old(editMode) && editIndex == old(editIndex) && FilterFields() == old(FilterFields())
    {
      newObjective := draft;
    }

    /** The key-result form's edits. */
    method SetNewKeyResult(kr: KeyResult)
      requires Valid() && ValidKeyResult(kr)
      modifies this
      ensures Valid()
      ensures newKeyResult == kr
      ensures objectives == old(objectives) && newObjective == old(newObjective)
      ensures editMode == old(editMode) && editIndex == old(editIndex) && FilterFields() == old(FilterFields())
    {
      newKeyResult := kr;
    }

    /** The navigation's "Add Objective" tab: leaves edit mode and starts a
        blank draft, but keeps the edit index. */
    method OpenBlankForm(today: Date, threeMonthsOn: Date)
      requires Valid()
      modifies this
      ensures Valid()
      ensures !editMode && newObjective == BlankDraft(today, threeMonthsOn)
      ensures editIndex == old(editIndex)
      ensures objectives == old(objectives) && newKeyResult == old(newKeyResult) && FilterFields() == old(FilterFields())
    {
      editMode := false;
      newObjective := BlankDraft(today, threeMonthsOn);
    }

    /** Saves the draft. A blank title changes nothing. In edit mode with an
        edit index the draft is written at that index (an index equal to the
        length appends, as an array store does) and edit mode ends; otherwise
        the draft is appended. Either way the form is then reset. */
    method AddObjective(today: Date, threeMonthsOn: Date)
      requires Valid()
      requires editMode && editIndex.Some? ==> editIndex.value <= |objectives|
      modifies this
      ensures Valid()
      ensures IsBlank(old(newObjective.title)) ==> unchanged(this)
      ensures !IsBlank(old(newObjective.title)) && old(editMode) && old(editIndex).Some? ==>
                && (old(editIndex).value < old(|objectives|) ==>
                      objectives == old(objectives)[old(editIndex).value := old(newObjective)])
                && (old(editIndex).value == old(|objectives|) ==>
                      objectives == old(objectives) + [old(newObjective)])
                && !editMode && editIndex == None
      ensures !IsBlank(old(newObjective.title)) && !(old(editMode) && old(editIndex).Some?) ==>
                && objectives == old(objectives) + [old(newObjective)]
                && editMode == old(editMode) && editIndex == old(editIndex)
      ensures !IsBlank(old(newObjective.title)) ==> newObjective == BlankDraft(today, threeMonthsOn)
      ensures newKeyResult == old(newKeyResult) && FilterFields() == old(FilterFields())
    {
      var draft, saved := newObjective, objectives;
      if IsBlank(draft.title) {
        return;
      }
      if editMode && editIndex.Some? {
        var i := editIndex.value;
        if i < |saved| {
          var updated := saved[i := draft];
          assert forall k :: 0 <= k < |updated| ==> updated[k] == saved[k] || updated[k] == draft;
          objectives := updated;
        } else {
          objectives := saved + [draft];
        }
        editMode := false;
        editIndex := None;
      } else {
        objectives := saved + [draft];
      }
      newObjective := BlankDraft(today, threeMonthsOn);
    }

    /** Appends the key-result form to the draft and resets that form; a blank
        title changes nothing. */
    method AddKeyResult()
      requires Valid()
      modifies this
      ensures Valid()
      ensures IsBlank(old(newKeyResult.title)) ==> unchanged(this)
      ensures !IsBlank(old(newKeyResult.title)) ==>
                && newObjective == old(newObjective).(keyResults := old(newObjective.keyResults) + [old(newKeyResult)])
                && newKeyResult == BLANK_KEY_RESULT
      ensures objectives == old(objectives) && editMode == old(editMode) && editIndex == old(editIndex)
      ensures FilterFields() == old(FilterFields())
    {
      if IsBlank(newKeyResult.title) {
        return;
      }
      newObjective := newObjective.(keyResults := newObjective.keyResults + [newKeyResult]);
      newKeyResult := BLANK_KEY_RESULT;
    }

    /** Removes key result `index` from the draft. */
    method RemoveKeyResult(index: nat)
      requires Valid()
      modifies this
      ensures Valid()
      ensures newObjective == old(newObjective).(keyResults := Splice(old(newObjective.keyResults), index))
      ensures objectives == old(objectives) && newKeyResult == old(newKeyResult)
      ensures editMode == old(editMode) && editIndex == old(editIndex) && FilterFields() == old(FilterFields())
    {
      var updated := Splice(newObjective.keyResults, index);
      newObjective := newObjective.(keyResults := updated);
    }

    /** Loads objective `index` into the form and enters edit mode. */
    method EditObjective(index: nat)
      requires Valid()
      requires index < |objectives|
      modifies this
      ensures Valid()
      ensures newObjective == old(objectives[index])
      ensures editMode && editIndex == Some(index)
      ensures objectives == old(objectives) && newKeyResult == old(newKeyResult) && FilterFields() == old(FilterFields())
    {
      newObjective := objectives[index];
      editMode := true;
      editIndex := Some(index);
    }

    /** Removes objective `index`; the edit state is left as it was. */
    method DeleteObjective(index: nat)
      requires Valid()
      modifies this
      ensures Valid()
      ensures objectives == Splice(old(objectives), index)
      ensures newObjective == old(newObjective) && newKeyResult == old(newKeyResult)
      ensures editMode == old(editMode) && editIndex == old(editIndex) && FilterFields() == old(FilterFields())
    {
      objectives := Splice(objectives, index);
    }

    /** Removes objective `index` and keeps the edit index on the objective
        being edited: edit mode ends when that objective is the one removed,
        and the index moves down by one when an earlier objective is removed. */
    method DeleteObjectiveKeepingEditTarget(index: nat)
      requires Valid()
      requires editMode && editIndex.Some? ==> editIndex.value < |objectives|
      modifies this
      ensures Valid()
      ensures objectives == Splice(old(objectives), index)
      ensures old(editIndex) == Some(index) && index < old(|objectives|) ==> !editMode && editIndex == None
      ensures !(old(editIndex) == Some(index) && index < old(|objectives|)) ==> editMode == old(editMode)
      ensures old(editIndex).None? ==> editIndex == None
      ensures old(editIndex).Some? && index < old(|objectives|) && old(editIndex).value > index ==>
                editIndex == Some(old(editIndex).value - 1)
      ensures old(editIndex).Some? && (index >= old(|objectives|) || old(editIndex).value < index) ==>
                editIndex == old(editIndex)
      ensures old(editMode && editIndex.Some?) && editMode ==>
                && editIndex.Some?
                && editIndex.value < |objectives|
                && objectives[editIndex.value] == old(objectives)[old(editIndex).value]
      ensures newObjective == old(newObjective) && newKeyResult == old(newKeyResult) && FilterFields() == old(FilterFields())
    {
      if index < |objectives| && editIndex.Some? {
        var e := editIndex.value;
        if e == index {
          editMode := false;
          editIndex := None;
        } else if e > index {
          editIndex := Some(e - 1);
        }
      }
      objectives := Splice(objectives, index);
    }

    /** Records a progress update on key result `krIndex` of objective
        `objIndex`; nothing else changes. */
    method UpdateKeyResult(objIndex: nat, krIndex: nat, value: Option<int>, today: Date)
      requires Valid()
      requires objIndex < |objectives| && krIndex < |objectives[objIndex].keyResults|
      modifies this
      ensures Valid()
      ensures |objectives| == old(|objectives|)
      ensures forall i :: 0 <= i < |objectives| && i != objIndex ==> objectives[i] == old(objectives[i])
      ensures var o := old(objectives[objIndex]);
              objectives[objIndex] ==
                o.(keyResults := o.keyResults[krIndex := RecordProgress(o.keyResults[krIndex], value, today)])
      ensures newObjective == old(newObjective) && newKeyResult == old(newKeyResult)
      ensures editMode == old(editMode) && editIndex == old(editIndex) && FilterFields() == old(FilterFields())
    {
      var o := objectives[objIndex];
      var kr := RecordProgress(o.keyResults[krIndex], value, today);
      var o' := o.(keyResults := o.keyResults[krIndex := kr]);
      objectives := objectives[objIndex := o'];
    }

    /** Clears the search, shows every category and status, and restores the
        period to the whole of `year`. */
    method ResetFilters(year: int)
      requires Valid()
      modifies this
      ensures Valid()
      ensures FilterFields() == FilterState("", ALL, ALL, YearRange(year))
      ensures objectives == old(objectives) && newObjective == old(newObjective) && newKeyResult == old(newKeyResult)
      ensures editMode == old(editMode) && editIndex == old(editIndex)
    {
      searchTerm := "";
      categoryFilter := ALL;
      statusFilter := ALL;
      dateRangeFilter := YearRange(year);
    }
  }

  /** Two objectives are saved; the first is opened for editing; the user goes
      back to the dashboard, which leaves edit mode on, and deletes that first
      objective; the form is opened again and saved. The stale edit index 0
      now points at the second objective, which the save overwrites: the
      second objective is lost and the deleted one is back. */
  method StaleEditIndexScenario(a: Objective, b: Objective, today: Date, threeMonthsOn: Date, year: int)
    returns (shown: seq<Objective>)
    requires ValidObjective(a) && ValidObjective(b) && !IsBlank(a.title) && !IsBlank(b.title)
    requires a != b
    ensures shown == [a]
    ensures b !in shown
  {
    var t := new Tracker(today, threeMonthsOn, year);
    t.SetNewObjective(a);
    t.AddObjective(today, threeMonthsOn);
    assert t.objectives == [a] && !t.editMode;
    t.SetNewObjective(b);
    t.AddObjective(today, threeMonthsOn);
    assert t.objectives == [a, b];
    t.EditObjective(0);
    assert t.newObjective == a && t.editMode && t.editIndex == Some(0);
    t.DeleteObjective(0);
    assert t.objectives == [b];
    ghost var before := t.objectives;
    assert !IsBlank(t.newObjective.title);
    t.AddObjective(today, threeMonthsOn);
    assert t.objectives == before[0 := a];
    shown := t.objectives;
  }

  /** The same steps with the delete that keeps the edit target: the second
      objective survives and the draft of the deleted one is saved as a new
      objective. */
  method KeptEditTargetScenario(a: Objective, b: Objective, today: Date, threeMonthsOn: Date, year: int)
    returns (shown: seq<Objective>)
    requires ValidObjective(a) && ValidObjective(b) && !IsBlank(a.title) && !IsBlank(b.title)
    ensures shown == [b, a]
  {
    var t := new Tracker(today, threeMonthsOn, year);
    t.SetNewObjective(a);
    t.AddObjective(today, threeMonthsOn);
    assert t.objectives == [a] && !t.editMode;
    t.SetNewObjective(b);
    t.AddObjective(today, threeMonthsOn);
    assert t.objectives == [a, b];
    t.EditObjective(0);
    assert t.newObjective == a && t.editMode && t.editIndex == Some(0);
    t.DeleteObjectiveKeepingEditTarget(0);
    assert t.objectives == [b] && !t.editMode;
    ghost var before := t.objectives;
    assert !IsBlank(t.newObjective.title);
    t.AddObjective(today, threeMonthsOn);
    assert t.objectives == before + [a];
    shown := t.objectives;
  }
}
