/**
  Smartwatch data: the per-day upsert and the clear-all of the wearable
  screen (app/samsung-health.tsx), and the derived figures of
  utils/samsungHealthUtils.ts (sleep-quality grade and the metrics summary).
  The simulated readings themselves are random in the app and a parameter here.
 */
module Wearable {
  import opened Common
  import opened Types
  import Keyed
  import S = Store

  // ---------------------------------------------------------------------------
  // Upsert by date

  function Date(d: SamsungHealthData): string { d.date }

  /** At most one record per day. */
  predicate OnePerDay(data: seq<SamsungHealthData>) {
    Keyed.UniqueKeys(data, Date)
  }

  /** The list update of `handleSimulateData`: replace the first record of the same day
      in place, or append when the day has none. */
  function Upsert(data: seq<SamsungHealthData>, rec: SamsungHealthData): (r: seq<SamsungHealthData>)
    ensures Keyed.HasKey(data, Date, rec.date) ==>
      exists k :: 0 <= k < |data| && data[k].date == rec.date && r == data[k := rec] &&
                  forall j :: 0 <= j < k ==> data[j].date != rec.date
    ensures !Keyed.HasKey(data, Date, rec.date) ==> r == data + [rec]
  {
    var key := Date;
    assert forall i :: 0 <= i < |data| ==> key(data[i]) == data[i].date;
    match FindIndex(data, Keyed.KeyIs(key, rec.date))
    case Some(k) => data[k := rec]
    case None => data + [rec]
  }

  /** Records of other days are untouched. */
  lemma UpsertKeepsOtherDays(data: seq<SamsungHealthData>, rec: SamsungHealthData)
    ensures forall x: SamsungHealthData :: x.date != rec.date ==> (x in Upsert(data, rec) <==> x in data)
  {
    var r := Upsert(data, rec);
    if Keyed.HasKey(data, Date, rec.date) {
      var k :| 0 <= k < |data| && data[k].date == rec.date && r == data[k := rec];
      forall x: SamsungHealthData | x.date != rec.date
        ensures x in r <==> x in data
      {
        if x in data {
          var i :| 0 <= i < |data| && data[i] == x;
          assert r[i] == x;
        }
        if x in r {
          var i :| 0 <= i < |r| && r[i] == x;
          assert data[i] == x;
        }
      }
    }
  }

  /** The upsert keeps "at most one record per day" and afterwards the day's record is the new one. */
  lemma UpsertKeepsOnePerDay(data: seq<SamsungHealthData>, rec: SamsungHealthData)
    requires OnePerDay(data)
    ensures OnePerDay(Upsert(data, rec))
    ensures rec in Upsert(data, rec)
  {
    var r := Upsert(data, rec);
    if Keyed.HasKey(data, Date, rec.date) {
      var k :| 0 <= k < |data| && data[k].date == rec.date && r == data[k := rec];
      assert r[k] == rec;
    } else {
      assert r[|data|] == rec;
    }
  }

  /** `handleSimulateData`: the reading is filed under the selected day. */
  function SimulateData(s: S.Store, selectedDate: string, reading: SamsungHealthData): (r: S.Store)
    ensures r == s.(samsungHealthData := Upsert(s.samsungHealthData, reading.(date := selectedDate)))
    ensures |s.samsungHealthData| <= |r.samsungHealthData| <= |s.samsungHealthData| + 1
  {
    S.UpdateSamsungHealthData(s, Upsert(s.samsungHealthData, reading.(date := selectedDate)))
  }

  /** After a simulation, looking up the selected day finds the new reading. */
  lemma SimulateThenLookup(s: S.Store, selectedDate: string, reading: SamsungHealthData)
    requires OnePerDay(s.samsungHealthData)
    ensures S.SamsungHealthDataByDate(SimulateData(s, selectedDate, reading), selectedDate)
         == Some(reading.(date := selectedDate))
  {
    var rec := reading.(date := selectedDate);
    var r := SimulateData(s, selectedDate, reading);
    UpsertKeepsOnePerDay(s.samsungHealthData, rec);
    var found := S.SamsungHealthDataByDate(r, selectedDate);
    assert found.Some? by {
      assert rec in r.samsungHealthData;
    }
    var i :| 0 <= i < |r.samsungHealthData| && r.samsungHealthData[i] == found.value;
    var j :| 0 <= j < |r.samsungHealthData| && r.samsungHealthData[j] == rec;
    assert i == j;
  }

  /** The confirmed "Clear" of `handleClearData`. */
  function ClearData(s: S.Store): (r: S.Store)
    ensures r.samsungHealthData == []
    ensures forall d :: S.SamsungHealthDataByDate(r, d).None?
    ensures r == s.(samsungHealthData := r.samsungHealthData)
  {
    S.UpdateSamsungHealthData(s, [])
  }

  // ---------------------------------------------------------------------------
  // Sleep quality and summary metrics

  /** JavaScript truthiness of an optional number: present and not zero. */
  predicate Truthy(v: Option<real>) {
    v.Some? && v.value != 0.0
  }

  /** Share of the night in one phase, in percent; an absent (or zero) phase counts as 0. */
  function Percent(phase: Option<real>, duration: real): real
    requires duration != 0.0
  {
    if Truthy(phase) then phase.value / duration * 100.0 else 0.0
  }

  const NoData := "No data"
  const Excellent := "Excellent"
  const Good := "Good"
  const Fair := "Fair"
  const Poor := "Poor"

  /** A recorded night whose deep share exceeds `deep` percent and whose REM share exceeds `rem` percent. */
  predicate Above(d: SamsungHealthData, deep: real, rem: real) {
    Truthy(d.sleepDuration)
    && Percent(d.sleepDeep, d.sleepDuration.value) > deep
    && Percent(d.sleepREM, d.sleepDuration.value) > rem
  }

  /** `calculateSleepQuality(data)`: the first of the bands 20/15, 15/10, 10/5 the night clears. */
  function SleepQuality(d: SamsungHealthData): (q: string)
    ensures q in {NoData, Excellent, Good, Fair, Poor}
    ensures q == NoData <==> !Truthy(d.sleepDuration)
    ensures q == Excellent <==> Above(d, 20.0, 15.0)
    ensures q == Good <==> !Above(d, 20.0, 15.0) && Above(d, 15.0, 10.0)
    ensures q == Fair <==> !Above(d, 20.0, 15.0) && !Above(d, 15.0, 10.0) && Above(d, 10.0, 5.0)
    ensures q == Poor <==>
      Truthy(d.sleepDuration) && !Above(d, 20.0, 15.0) && !Above(d, 15.0, 10.0) && !Above(d, 10.0, 5.0)
  {
    if !Truthy(d.sleepDuration) then NoData
    else
      var deep := Percent(d.sleepDeep, d.sleepDuration.value);
      var rem := Percent(d.sleepREM, d.sleepDuration.value);
      if deep > 20.0 && rem > 15.0 then Excellent
      else if deep > 15.0 && rem > 10.0 then Good
      else if deep > 10.0 && rem > 5.0 then Fair
      else Poor
  }

  /** The grades as a scale: Poor 0, Fair 1, Good 2, Excellent 3. */
  function Grade(q: string): int {
    if q == Excellent then 3 else if q == Good then 2 else if q == Fair then 1 else 0
  }

  /** The grades form a ladder: a recorded night reaches grade k exactly when it clears band k. */
  lemma SleepGradeLadder(d: SamsungHealthData, k: int)
    requires Truthy(d.sleepDuration) && 1 <= k <= 3
    ensures Grade(SleepQuality(d)) >= k <==> Above(d, 5.0 + 5.0 * k as real, 5.0 * k as real)
  {
  }

  /** With a positive duration the percentage tests are the cross-multiplied comparisons. */
  lemma PercentCrossMultiplied(phase: real, duration: real, bound: real)
    requires duration > 0.0
    ensures Percent(Some(phase), duration) > bound <==>
      (if phase != 0.0 then 100.0 * phase else 0.0) > bound * duration
  {
    if phase != 0.0 {
      assert phase / duration * 100.0 * duration == 100.0 * phase;
    }
  }

  /** More deep sleep in the same night never lowers the grade. */
  lemma MoreDeepSleepNeverWorse(d: SamsungHealthData, more: real)
    requires Truthy(d.sleepDuration) && d.sleepDuration.value > 0.0
    requires d.sleepDeep.Some? && d.sleepDeep.value >= 0.0 && more > d.sleepDeep.value
    ensures Grade(SleepQuality(d)) <= Grade(SleepQuality(d.(sleepDeep := Some(more))))
  {
    var dur := d.sleepDuration.value;
    assert Percent(d.sleepDeep, dur) <= Percent(Some(more), dur) by {
      assert d.sleepDeep.value / dur <= more / dur;
    }
  }

  lemma SleepExamples(d: SamsungHealthData)
    requires d.sleepDuration == Some(8.0) && d.sleepREM == Some(1.5)
    ensures SleepQuality(d.(sleepDeep := Some(2.0))) == Excellent
    ensures SleepQuality(d.(sleepDeep := None)) == Poor
    ensures SleepQuality(d.(sleepDuration := Some(0.0))) == NoData
  {
  }

  datatype HealthMetrics = HealthMetrics(
    avgHeartRate: Option<int>, totalSteps: int, totalSleep: real, sleepQuality: string)

  /** `calculateHealthMetrics(data)`. The mean heart rate is NaN (None) unless all three rates are present. */
  function CalculateHealthMetrics(d: SamsungHealthData): (r: HealthMetrics)
    ensures r.avgHeartRate.Some? <==>
      d.heartRateResting.Some? && d.heartRateLight.Some? && d.heartRateSports.Some?
    ensures r.avgHeartRate.Some? ==>
      var sum := d.heartRateResting.value + d.heartRateLight.value + d.heartRateSports.value;
      2 * sum - 3 < 6 * r.avgHeartRate.value <= 2 * sum + 3
    ensures d.stepCount.None? ==> r.totalSteps == 0
    ensures d.stepCount.Some? ==> r.totalSteps == d.stepCount.value
    ensures d.sleepDuration.None? ==> r.totalSleep == 0.0
    ensures d.sleepDuration.Some? ==> r.totalSleep == d.sleepDuration.value
    ensures r.sleepQuality == SleepQuality(d)
  {
    var avg :=
      if d.heartRateResting.Some? && d.heartRateLight.Some? && d.heartRateSports.Some?
      then Some(RoundDiv(d.heartRateResting.value + d.heartRateLight.value + d.heartRateSports.value, 3))
      else None;
    HealthMetrics(avg, d.stepCount.GetOr(0), d.sleepDuration.GetOr(0.0), SleepQuality(d))
  }
}
