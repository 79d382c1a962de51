/** The five-band status badge: a first-match ladder over a progress value. */
module Status {

  datatype Band = OffTrack | AtRisk | InProgress | OnTrack | Overachieved

  /** The text the badge shows, which is also the status filter's option value. */
  function Label(b: Band): string {
    match b
    case OffTrack => "Off Track"
    case AtRisk => "At Risk"
    case InProgress => "In Progress"
    case OnTrack => "On Track"
    case Overachieved => "Overachieved"
  }

  /** The badge's colour classes for each band. */
  function BadgeColor(b: Band): string {
    match b
    case OffTrack => "bg-red-100 text-red-800 border-red-200"
    case AtRisk => "bg-yellow-100 text-yellow-800 border-yellow-200"
    case InProgress => "bg-blue-100 text-blue-800 border-blue-200"
    case OnTrack => "bg-green-100 text-green-800 border-green-200"
    case Overachieved => "bg-purple-100 text-purple-800 border-purple-200"
  }

  /** Position of a band in the order Off Track < At Risk < In Progress <
      On Track < Overachieved. */
  function Rank(b: Band): nat {
    match b
    case OffTrack => 0
    case AtRisk => 1
    case InProgress => 2
    case OnTrack => 3
    case Overachieved => 4
  }

  /** The ladder, tried top down; the first test that holds decides. Each band
      is a half-open interval of progress values, and together they cover every
      value. */
  function Classify(progress: int): (b: Band)
    ensures b == Overachieved <==> progress > 100
    ensures b == OnTrack <==> 80 <= progress <= 100
    ensures b == InProgress <==> 50 <= progress < 80
    ensures b == AtRisk <==> 25 <= progress < 50
    ensures b == OffTrack <==> progress < 25
  {
    if progress > 100 then Overachieved
    else if progress >= 80 then OnTrack
    else if progress >= 50 then InProgress
    else if progress >= 25 then AtRisk
    else OffTrack
  }

  /** The badge shown for a progress value: its text and colour. */
  function Badge(progress: int): (r: (string, string))
    ensures exists b: Band :: r == (Label(b), BadgeColor(b))
    ensures r.0 == "Overachieved" <==> progress > 100
    ensures r.0 == "On Track" <==> 80 <= progress <= 100
    ensures r.0 == "In Progress" <==> 50 <= progress < 80
    ensures r.0 == "At Risk" <==> 25 <= progress < 50
    ensures r.0 == "Off Track" <==> progress < 25
  {
    var b := Classify(progress);
    LabelsDistinct();
    (Label(b), BadgeColor(b))
  }

  /** Different bands have different labels, so a label names one band. */
  lemma LabelsDistinct()
    ensures forall b1: Band, b2: Band :: Label(b1) == Label(b2) ==> b1 == b2
  {
    forall b1: Band, b2: Band | Label(b1) == Label(b2) ensures b1 == b2 {
      assert Label(b1)[1] == Label(b2)[1] && Label(b1)[|Label(b1)| - 1] == Label(b2)[|Label(b2)| - 1];
    }
  }

  /** A higher progress value never falls into a lower band. */
  lemma ClassifyMonotone(p: int, q: int)
    requires p <= q
    ensures Rank(Classify(p)) <= Rank(Classify(q))
  {
  }

  /** The values on either side of every threshold. */
  lemma ClassifyBoundaries()
    ensures Classify(101) == Overachieved && Classify(100) == OnTrack
    ensures Classify(80) == OnTrack && Classify(79) == InProgress
    ensures Classify(50) == InProgress && Classify(49) == AtRisk
    ensures Classify(25) == AtRisk && Classify(24) == OffTrack
    ensures Classify(-1) == OffTrack
  {
  }
}
