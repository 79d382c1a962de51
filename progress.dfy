/** Progress rollup of an objective from its key results
    (`calculateObjectiveProgress`). */
module Progress {
  import opened Model

  /** JavaScript `Math.round`, which is floor(x + 1/2): the nearest integer,
      halves rounded up. */
  function Round(x: real): (r: int)
    ensures r as real - 0.5 <= x < r as real + 0.5
  {
    (x + 0.5).Floor
  }

  /** One key result's percentage `current / target * 100`, not clamped. */
  function Ratio(kr: KeyResult): (p: real)
    requires ValidKeyResult(kr)
    ensures p * kr.target as real == 100.0 * kr.current as real
  {
    (kr.current as real / kr.target as real) * 100.0
  }

  /** The `reduce` over the key results: ((0 + p0) + p1) + ... */
  function Total(krs: seq<KeyResult>): real
    requires ValidKeyResults(krs)
    decreases |krs|
  {
    if |krs| == 0 then 0.0 else Total(krs[..|krs| - 1]) + Ratio(krs[|krs| - 1])
  }

  /** The average percentage of a non-empty list of key results. */
  function Mean(krs: seq<KeyResult>): real
    requires ValidKeyResults(krs) && |krs| > 0
  {
    Total(krs) / |krs| as real
  }

  /** An objective's progress: the rounded average of its key results'
      percentages, 0 when it has none, capped at 100 unless overachievement is
      allowed. The cap is the default. */
  function ObjectiveProgress(krs: seq<KeyResult>, allowOverachievement: bool := false): (r: int)
    requires ValidKeyResults(krs)
    ensures |krs| == 0 ==> r == 0
    ensures |krs| > 0 && allowOverachievement ==> r as real - 0.5 <= Mean(krs) < r as real + 0.5
    ensures !allowOverachievement ==> r <= 100
  {
    if |krs| == 0 then 0
    else
      var avg := Round(Total(krs) / |krs| as real);
      if allowOverachievement then avg else Min(avg, 100)
  }

  /** The capped progress is the uncapped one with 100 as a ceiling. */
  lemma CappedIsMinOfUncapped(krs: seq<KeyResult>)
    requires ValidKeyResults(krs)
    ensures ObjectiveProgress(krs, false) == Min(ObjectiveProgress(krs, true), 100)
    ensures ObjectiveProgress(krs) == ObjectiveProgress(krs, false)
  {
  }

  /** Taking one key result out of the list takes its percentage out of the sum. */
  lemma {:induction false} TotalRemove(s: seq<KeyResult>, i: nat)
    requires ValidKeyResults(s) && i < |s|
    ensures ValidKeyResults(s[..i] + s[i + 1..])
    ensures Total(s) == Total(s[..i] + s[i + 1..]) + Ratio(s[i])
    decreases |s|
  {
    var n := |s| - 1;
    var rest := s[..i] + s[i + 1..];
    if i == n {
      assert rest == s[..n];
    } else {
      var s' := s[..n];
      TotalRemove(s', i);
      var rest' := s'[..i] + s'[i + 1..];
      assert rest == rest' + [s[n]];
      assert rest[..|rest| - 1] == rest';
      assert Total(rest) == Total(rest') + Ratio(s[n]);
    }
  }

  /** In a permutation of `a`, some position `i` of `b` holds the last element
      of `a`, and the rest of `b` is a permutation of the rest of `a`. */
  lemma MatchLast<T>(a: seq<T>, b: seq<T>) returns (i: nat)
    requires |a| > 0 && multiset(a) == multiset(b)
    ensures i < |b| && b[i] == a[|a| - 1]
    ensures multiset(a[..|a| - 1]) == multiset(b[..i] + b[i + 1..])
  {
    var n := |a| - 1;
    assert a[n] in multiset(b);
    i :| 0 <= i < |b| && b[i] == a[n];
    assert a == a[..n] + [a[n]];
    assert multiset(a[..n]) == multiset(a) - multiset{a[n]};
    assert b == b[..i] + [b[i]] + b[i + 1..];
    assert multiset(b[..i] + b[i + 1..]) == multiset(b) - multiset{b[i]};
  }

  /** The sum depends only on the multiset of key results. */
  lemma {:induction false} TotalPermutation(a: seq<KeyResult>, b: seq<KeyResult>)
    requires ValidKeyResults(a) && ValidKeyResults(b)
    requires multiset(a) == multiset(b)
    ensures Total(a) == Total(b)
    decreases |a|
  {
    if |a| > 0 {
      var n := |a| - 1;
      var i := MatchLast(a, b);
      TotalRemove(b, i);
      TotalPermutation(a[..n], b[..i] + b[i + 1..]);
    } else {
      assert b == [];
    }
  }

  /** Reordering the key results does not change the objective's progress. */
  lemma ProgressPermutationInvariant(a: seq<KeyResult>, b: seq<KeyResult>, allowOverachievement: bool)
    requires ValidKeyResults(a) && ValidKeyResults(b)
    requires multiset(a) == multiset(b)
    ensures ObjectiveProgress(a, allowOverachievement) == ObjectiveProgress(b, allowOverachievement)
  {
    assert |a| == |multiset(a)| == |multiset(b)| == |b|;
    TotalPermutation(a, b);
  }

  predicate NonNegativeCurrents(krs: seq<KeyResult>) {
    forall k :: 0 <= k < |krs| ==> krs[k].current >= 0
  }

  lemma {:induction false} TotalNonNegative(krs: seq<KeyResult>)
    requires ValidKeyResults(krs) && NonNegativeCurrents(krs)
    ensures Total(krs) >= 0.0
    decreases |krs|
  {
    if |krs| > 0 {
      var last := krs[|krs| - 1];
      assert last.current as real / last.target as real >= 0.0;
      TotalNonNegative(krs[..|krs| - 1]);
    }
  }

  /** With no negative current value, progress is never negative in either mode. */
  lemma ProgressNonNegative(krs: seq<KeyResult>, allowOverachievement: bool)
    requires ValidKeyResults(krs) && NonNegativeCurrents(krs)
    ensures ObjectiveProgress(krs, allowOverachievement) >= 0
  {
    if |krs| > 0 {
      TotalNonNegative(krs);
    }
  }

  /** No key result is above its target. */
  predicate NoneOverachieved(krs: seq<KeyResult>) {
    forall k :: 0 <= k < |krs| ==> krs[k].current <= krs[k].target
  }

  lemma {:induction false} TotalAtMostHundredEach(krs: seq<KeyResult>)
    requires ValidKeyResults(krs) && NoneOverachieved(krs)
    ensures Total(krs) <= 100.0 * |krs| as real
    decreases |krs|
  {
    if |krs| > 0 {
      var last := krs[|krs| - 1];
      var c, t := last.current as real, last.target as real;
      assert c / t <= t / t == 1.0;
      TotalAtMostHundredEach(krs[..|krs| - 1]);
    }
  }

  /** When no key result exceeds its target the cap never bites, so both modes
      give the same progress. */
  lemma ModesAgreeWithoutOverachievement(krs: seq<KeyResult>)
    requires ValidKeyResults(krs) && NoneOverachieved(krs)
    ensures ObjectiveProgress(krs, false) == ObjectiveProgress(krs, true)
  {
    if |krs| > 0 {
      TotalAtMostHundredEach(krs);
      var n := |krs| as real;
      assert Total(krs) / n <= 100.0 * n / n;
    }
  }

  /** Two key results at 50% and 150% average to exactly 100 in both modes. */
  lemma MixedScenario()
    ensures var krs := [KeyResult("a", 100, 50, None), KeyResult("b", 100, 150, None)];
            ObjectiveProgress(krs, true) == 100 && ObjectiveProgress(krs, false) == 100
  {
    var krs := [KeyResult("a", 100, 50, None), KeyResult("b", 100, 150, None)];
    assert krs[..1] == [krs[0]];
    assert Total(krs[..1]) == Ratio(krs[0]) == 50.0;
    assert Total(krs) == 200.0;
  }

  /** A single key result at 200%: uncapped progress 200, capped progress 100. */
  lemma OverachievedScenario()
    ensures var krs := [KeyResult("a", 100, 200, None)];
            ObjectiveProgress(krs, true) == 200 && ObjectiveProgress(krs, false) == 100
  {
    var krs := [KeyResult("a", 100, 200, None)];
    assert Total(krs) == Total([]) + Ratio(krs[0]) == 200.0;
  }
}
