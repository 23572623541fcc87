/**
  The two health evaluators of utils/errorLogger.ts: the rounded averages
  over a list of entries, overall and bucketed by activity level, and the
  baseline-relative warnings for one new entry. The percentage thresholds
  (x1.3, x0.7, x1.2, x0.8) are exact rationals, cleared of denominators.
 */
module Health {
  import opened Common
  import opened Types

  // ---------------------------------------------------------------------------
  // Averages

  /** JavaScript truthiness of an optional reading: present and not zero. */
  predicate Truthy(v: Option<int>) {
    v.Some? && v.value != 0
  }

  /** The six averages `calculateAverageValues` returns. */
  datatype Averages = Averages(
    pulse: int, systolic: int, diastolic: int,
    pulseResting: int, pulseLight: int, pulseSports: int)

  /** What an average is taken of: a resting reading, or the resting pulse of one activity. */
  datatype Metric = Pulse | Systolic | Diastolic | PulseAt(activity: Activity)

  /** The reading an entry offers to a metric (None when it offers none). */
  function Reading(e: HealthEntry, m: Metric): (r: Option<int>)
    ensures m.PulseAt? && r.Some? ==> e.activityLevel == Some(m.activity) && r == e.pulseResting
  {
    match m
    case Pulse => e.pulseResting
    case Systolic => e.systolicResting
    case Diastolic => e.diastolicResting
    case PulseAt(a) => if e.activityLevel == Some(a) then e.pulseResting else None
  }

  /** The values that contribute to a metric's average, in entry order: the truthy readings. */
  function Contributions(es: seq<HealthEntry>, m: Metric): (r: seq<int>)
    ensures |r| <= |es|
    ensures forall i :: 0 <= i < |r| ==> r[i] != 0
  {
    if |es| == 0 then []
    else
      var last := es[|es| - 1];
      Contributions(es[..|es| - 1], m) + (if Truthy(Reading(last, m)) then [Reading(last, m).value] else [])
  }

  /** One more entry extends a metric's contributions by its truthy reading, if any. */
  lemma ContributionsStep(es: seq<HealthEntry>, i: int, m: Metric)
    requires 0 <= i < |es|
    ensures Contributions(es[..i + 1], m)
         == Contributions(es[..i], m) + (if Truthy(Reading(es[i], m)) then [Reading(es[i], m).value] else [])
    ensures Sum(Contributions(es[..i + 1], m))
         == Sum(Contributions(es[..i], m)) + (if Truthy(Reading(es[i], m)) then Reading(es[i], m).value else 0)
  {
    assert es[..i + 1][..i] == es[..i];
    var xs := Contributions(es[..i], m);
    if Truthy(Reading(es[i], m)) {
      assert (xs + [Reading(es[i], m).value])[..|xs|] == xs;
    } else {
      assert xs + [] == xs;
    }
  }

  /** A metric's reference average: 0 when nothing contributes, else the rounded mean. */
  function Average(es: seq<HealthEntry>, m: Metric): int {
    MeanOrZero(Contributions(es, m))
  }

  /** One entry's step of the pass for one metric: a truthy reading is added to the total
      and counted. For an activity bucket the reading is the resting pulse of an entry of
      that activity, so the bucket is only touched when the pulse itself was counted. */
  method Tally(es: seq<HealthEntry>, i: int, m: Metric, total: int, count: int) returns (total': int, count': int)
    requires 0 <= i < |es|
    requires total == Sum(Contributions(es[..i], m)) && count == |Contributions(es[..i], m)|
    ensures total' == Sum(Contributions(es[..i + 1], m)) && count' == |Contributions(es[..i + 1], m)|
  {
    ContributionsStep(es, i, m);
    var v := Reading(es[i], m);
    if Truthy(v) {
      total', count' := total + v.value, count + 1;
    } else {
      total', count' := total, count;
    }
  }

  /** `calculateAverageValues(entries)`: one pass accumulating six totals and six counts. */
  method CalculateAverageValues(es: seq<HealthEntry>) returns (r: Averages)
    ensures r.pulse == Average(es, Pulse)
    ensures r.systolic == Average(es, Systolic)
    ensures r.diastolic == Average(es, Diastolic)
    ensures r.pulseResting == Average(es, PulseAt(Resting))
    ensures r.pulseLight == Average(es, PulseAt(Light))
    ensures r.pulseSports == Average(es, PulseAt(Sports))
    ensures es == [] ==> r == Averages(0, 0, 0, 0, 0, 0)
  {
    if |es| == 0 {
      return Averages(0, 0, 0, 0, 0, 0);
    }
    var totalPulse, pulseCount := 0, 0;
    var totalSystolic, systolicCount := 0, 0;
    var totalDiastolic, diastolicCount := 0, 0;
    var totalResting, restingCount := 0, 0;
    var totalLight, lightCount := 0, 0;
    var totalSports, sportsCount := 0, 0;
    var i := 0;
    while i < |es|
      invariant 0 <= i <= |es|
      invariant totalPulse == Sum(Contributions(es[..i], Pulse)) && pulseCount == |Contributions(es[..i], Pulse)|
      invariant totalSystolic == Sum(Contributions(es[..i], Systolic)) && systolicCount == |Contributions(es[..i], Systolic)|
      invariant totalDiastolic == Sum(Contributions(es[..i], Diastolic)) && diastolicCount == |Contributions(es[..i], Diastolic)|
      invariant totalResting == Sum(Contributions(es[..i], PulseAt(Resting))) && restingCount == |Contributions(es[..i], PulseAt(Resting))|
      invariant totalLight == Sum(Contributions(es[..i], PulseAt(Light))) && lightCount == |Contributions(es[..i], PulseAt(Light))|
      invariant totalSports == Sum(Contributions(es[..i], PulseAt(Sports))) && sportsCount == |Contributions(es[..i], PulseAt(Sports))|
    {
      totalPulse, pulseCount := Tally(es, i, Pulse, totalPulse, pulseCount);
      totalResting, restingCount := Tally(es, i, PulseAt(Resting), totalResting, restingCount);
      totalLight, lightCount := Tally(es, i, PulseAt(Light), totalLight, lightCount);
      totalSports, sportsCount := Tally(es, i, PulseAt(Sports), totalSports, sportsCount);
      totalSystolic, systolicCount := Tally(es, i, Systolic, totalSystolic, systolicCount);
      totalDiastolic, diastolicCount := Tally(es, i, Diastolic, totalDiastolic, diastolicCount);
      i := i + 1;
    }
    assert es[..|es|] == es;
    r := Averages(
      if pulseCount > 0 then RoundDiv(totalPulse, pulseCount) else 0,
      if systolicCount > 0 then RoundDiv(totalSystolic, systolicCount) else 0,
      if diastolicCount > 0 then RoundDiv(totalDiastolic, diastolicCount) else 0,
      if restingCount > 0 then RoundDiv(totalResting, restingCount) else 0,
      if lightCount > 0 then RoundDiv(totalLight, lightCount) else 0,
      if sportsCount > 0 then RoundDiv(totalSports, sportsCount) else 0);
  }

  /** An absent or zero reading is ignored: adding such an entry leaves every average as it was. */
  lemma IgnoredReadingChangesNothing(es: seq<HealthEntry>, e: HealthEntry, m: Metric)
    requires !Truthy(Reading(e, m))
    ensures Average(es + [e], m) == Average(es, m)
  {
    assert (es + [e])[..|es|] == es;
    assert Contributions(es + [e], m) == Contributions(es, m) + [];
    assert Contributions(es, m) + [] == Contributions(es, m);
  }

  /** An entry's pulse goes to at most one activity bucket, so the buckets together
      hold no more readings than the overall pulse. */
  lemma {:induction false} BucketsWithinPulse(es: seq<HealthEntry>)
    ensures |Contributions(es, PulseAt(Resting))| + |Contributions(es, PulseAt(Light))|
          + |Contributions(es, PulseAt(Sports))| <= |Contributions(es, Pulse)|
  {
    if |es| > 0 {
      BucketsWithinPulse(es[..|es| - 1]);
    }
  }

  lemma ContributionsSnoc(es: seq<HealthEntry>, e: HealthEntry, m: Metric)
    ensures Contributions(es + [e], m)
         == Contributions(es, m) + (if Truthy(Reading(e, m)) then [Reading(e, m).value] else [])
  {
    assert (es + [e])[..|es|] == es;
  }

  /** Entries with pulse 70, 75 and none contribute exactly 70 and 75 to the pulse average. */
  lemma ContributionsExample(e1: HealthEntry, e2: HealthEntry, e3: HealthEntry)
    requires e1.pulseResting == Some(70) && e2.pulseResting == Some(75) && e3.pulseResting == None
    ensures Contributions([e1, e2, e3], Pulse) == [70, 75]
  {
    ContributionsSnoc([], e1, Pulse);
    assert [] + [e1] == [e1];
    ContributionsSnoc([e1], e2, Pulse);
    assert [e1] + [e2] == [e1, e2];
    ContributionsSnoc([e1, e2], e3, Pulse);
    assert [e1, e2] + [e3] == [e1, e2, e3];
  }

  /** ... and their average is round(72.5) = 73. */
  lemma AverageExample(e1: HealthEntry, e2: HealthEntry, e3: HealthEntry)
    requires e1.pulseResting == Some(70) && e2.pulseResting == Some(75) && e3.pulseResting == None
    ensures Average([e1, e2, e3], Pulse) == 73
  {
    ContributionsExample(e1, e2, e3);
    assert [70, 75][..1] == [70] && [70][..0] == [];
    assert Sum([70, 75]) == 145;
    assert RoundDiv(145, 2) == 73;
  }

  // ---------------------------------------------------------------------------
  // Warnings

  /** The warning messages, in the order they are checked. */
  datatype Warning =
    | HighPulse(value: int, avg: int)
    | LowPulse(value: int, avg: int)
    | HighSystolic(value: int, avg: int)
    | LowSystolic(value: int, avg: int)
  {
    /** Position in the check order. */
    function Rank(): nat {
      match this
      case HighPulse(_, _) => 0
      case LowPulse(_, _) => 1
      case HighSystolic(_, _) => 2
      case LowSystolic(_, _) => 3
    }

    /** The text pushed onto the warnings list. */
    function Message(): string {
      match this
      case HighPulse(v, a) => "High pulse: " + IntToString(v) + " bpm (avg: " + IntToString(a) + " bpm)"
      case LowPulse(v, a) => "Low pulse: " + IntToString(v) + " bpm (avg: " + IntToString(a) + " bpm)"
      case HighSystolic(v, a) => "High systolic: " + IntToString(v) + " mmHg (avg: " + IntToString(a) + " mmHg)"
      case LowSystolic(v, a) => "Low systolic: " + IntToString(v) + " mmHg (avg: " + IntToString(a) + " mmHg)"
    }
  }

  /** pulse > avg * 1.3 */
  predicate PulseHigh(e: HealthEntry, p: UserProfile) {
    Truthy(e.pulseResting) && 10 * e.pulseResting.value > 13 * p.avgPulse
  }

  /** pulse < avg * 0.7 */
  predicate PulseLow(e: HealthEntry, p: UserProfile) {
    Truthy(e.pulseResting) && 10 * e.pulseResting.value < 7 * p.avgPulse
  }

  /** systolic > avg * 1.2 */
  predicate SystolicHigh(e: HealthEntry, p: UserProfile) {
    Truthy(e.systolicResting) && 10 * e.systolicResting.value > 12 * p.avgSystolic
  }

  /** systolic < avg * 0.8 */
  predicate SystolicLow(e: HealthEntry, p: UserProfile) {
    Truthy(e.systolicResting) && 10 * e.systolicResting.value < 8 * p.avgSystolic
  }

  /** `checkHealthWarnings(entry, profile)`. */
  function CheckHealthWarnings(e: HealthEntry, p: UserProfile): (r: seq<Warning>)
    ensures (exists w :: w in r && w.HighPulse?) <==> PulseHigh(e, p)
    ensures (exists w :: w in r && w.LowPulse?) <==> PulseLow(e, p)
    ensures (exists w :: w in r && w.HighSystolic?) <==> SystolicHigh(e, p)
    ensures (exists w :: w in r && w.LowSystolic?) <==> SystolicLow(e, p)
    ensures forall w :: w in r && (w.HighPulse? || w.LowPulse?) ==>
      w.value == e.pulseResting.value && w.avg == p.avgPulse
    ensures forall w :: w in r && (w.HighSystolic? || w.LowSystolic?) ==>
      w.value == e.systolicResting.value && w.avg == p.avgSystolic
  {
    var r :=
      (if PulseHigh(e, p) then [HighPulse(e.pulseResting.value, p.avgPulse)] else [])
      + (if PulseLow(e, p) then [LowPulse(e.pulseResting.value, p.avgPulse)] else [])
      + (if SystolicHigh(e, p) then [HighSystolic(e.systolicResting.value, p.avgSystolic)] else [])
      + (if SystolicLow(e, p) then [LowSystolic(e.systolicResting.value, p.avgSystolic)] else []);
    assert PulseHigh(e, p) ==> HighPulse(e.pulseResting.value, p.avgPulse) in r;
    assert PulseLow(e, p) ==> LowPulse(e.pulseResting.value, p.avgPulse) in r;
    assert SystolicHigh(e, p) ==> HighSystolic(e.systolicResting.value, p.avgSystolic) in r;
    assert SystolicLow(e, p) ==> LowSystolic(e.systolicResting.value, p.avgSystolic) in r;
    r
  }

  /** The warnings come out in check order: pulse high, pulse low, systolic high, systolic low. */
  lemma WarningsInCheckOrder(e: HealthEntry, p: UserProfile)
    ensures var r := CheckHealthWarnings(e, p);
      forall i, j :: 0 <= i < j < |r| ==> r[i].Rank() < r[j].Rank()
  {
  }

  /** With non-negative baselines a reading cannot be both high and low: at most one warning per metric. */
  lemma AtMostTwoWarnings(e: HealthEntry, p: UserProfile)
    requires p.avgPulse >= 0 && p.avgSystolic >= 0
    ensures |CheckHealthWarnings(e, p)| <= 2
  {
  }

  /** The diastolic reading is never checked. */
  lemma DiastolicIgnored(e: HealthEntry, p: UserProfile, d: Option<int>)
    ensures CheckHealthWarnings(e.(diastolicResting := d), p) == CheckHealthWarnings(e, p)
  {
  }

  lemma WarningExamples(e: HealthEntry, p: UserProfile)
    requires p.avgPulse == 70 && e.systolicResting == None
    ensures CheckHealthWarnings(e.(pulseResting := Some(92)), p) == [HighPulse(92, 70)]
    ensures CheckHealthWarnings(e.(pulseResting := Some(48)), p) == [LowPulse(48, 70)]
    ensures CheckHealthWarnings(e.(pulseResting := Some(70)), p) == []
    ensures CheckHealthWarnings(e.(pulseResting := Some(0)), p) == []
  {
  }
}
