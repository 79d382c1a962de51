/** Entities of the OKR tracker: key results with their progress history,
    objectives, calendar dates, and the category enumeration. */
module Model {

  datatype Option<+T> = None | Some(value: T) {
    function GetOr(default: T): T {
      match this
      case Some(v) => v
      case None => default
    }
  }

  function Min(a: int, b: int): int { if a <= b then a else b }

  function Max(a: int, b: int): int { if a >= b then a else b }

  /** A calendar day, as the `YYYY-MM-DD` strings the application stores. */
  datatype Date = Date(year: int, month: int, day: int)

  /** Chronological order of two days (the order of their `YYYY-MM-DD` strings). */
  predicate DateLe(a: Date, b: Date) {
    a.year < b.year ||
    (a.year == b.year && (a.month < b.month || (a.month == b.month && a.day <= b.day)))
  }

  /** One `{date, value}` record appended by a progress update. */
  datatype HistoryEntry = HistoryEntry(date: Date, value: int)

  /** A measurable sub-goal. `history` is absent until the first progress update. */
  datatype KeyResult = KeyResult(title: string, target: int, current: int, history: Option<seq<HistoryEntry>>)

  /** A goal. An empty `category` stands for a missing one; a missing or empty
      date input is `None`. */
  datatype Objective = Objective(
    title: string,
    description: string,
    category: string,
    startDate: Option<Date>,
    endDate: Option<Date>,
    keyResults: seq<KeyResult>)

  /** The categories offered by the objective form. */
  const CATEGORIES: seq<string> := ["Business", "Product", "Engineering", "Marketing", "Personal"]

  /** A key result whose ratio is defined: the form falls back to a target of 100
      when the field does not parse. */
  predicate ValidKeyResult(kr: KeyResult) { kr.target > 0 }

  predicate ValidKeyResults(krs: seq<KeyResult>) {
    forall k :: 0 <= k < |krs| ==> ValidKeyResult(krs[k])
  }

  predicate ValidObjective(o: Objective) { ValidKeyResults(o.keyResults) }

  predicate ValidObjectives(objs: seq<Objective>) {
    forall i :: 0 <= i < |objs| ==> ValidObjective(objs[i])
  }

  /** The entries recorded so far; an absent history has none. */
  function HistoryOf(kr: KeyResult): seq<HistoryEntry> {
    kr.history.GetOr([])
  }

  /** Removes element `i` as `Array.prototype.splice(i, 1)` does for a
      non-negative index; an index past the end removes nothing. */
  function Splice<T>(s: seq<T>, i: nat): (r: seq<T>)
    ensures i < |s| ==> |r| == |s| - 1
    ensures i < |s| ==> forall j :: 0 <= j < i ==> r[j] == s[j]
    ensures i < |s| ==> forall j :: i <= j < |r| ==> r[j] == s[j + 1]
    ensures i >= |s| ==> r == s
  {
    if i < |s| then s[..i] + s[i + 1..] else s
  }
}
