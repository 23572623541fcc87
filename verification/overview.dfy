/**
  The home screen's daily figures (components/BodyScrollView.tsx): the mean
  resting pulse, the medication count and the mean mood of today's entries,
  the mood band, and the water-intake total, goal progress and quick-add.
  "Today" is a parameter.
 */
module Overview {
  import opened Common
  import opened Types
  import Keyed
  import H = Health
  import S = Store

  // ---------------------------------------------------------------------------
  // Means over today's entries

  function PulseOf(e: HealthEntry): Option<int> { e.pulseResting }
  function MoodOf(e: HealthEntry): Option<int> { e.mood }

  function TruthyBy(get: HealthEntry -> Option<int>): HealthEntry -> bool {
    e => H.Truthy(get(e))
  }

  /** The values of entries already known to have a truthy reading (`.map(e => e.x || 0)`). */
  function ValuesOf(es: seq<HealthEntry>, get: HealthEntry -> Option<int>): (r: seq<int>)
    requires forall i :: 0 <= i < |es| ==> get(es[i]).Some? && get(es[i]).value != 0
    ensures |r| == |es|
    ensures forall i :: 0 <= i < |es| ==> r[i] == get(es[i]).value && r[i] != 0
  {
    seq(|es|, i requires 0 <= i < |es| => get(es[i]).value)
  }

  /** `entries.filter(e => e.x).map(e => e.x || 0)`. */
  function Truthies(es: seq<HealthEntry>, get: HealthEntry -> Option<int>): (r: seq<int>)
    ensures |r| <= |es|
  {
    var f := Filter(es, TruthyBy(get));
    assert forall i :: 0 <= i < |f| ==> f[i] in f && TruthyBy(get)(f[i]) && H.Truthy(get(f[i]));
    ValuesOf(f, get)
  }

  /** `calculateAveragePulse()` over the given entries. */
  function AveragePulse(es: seq<HealthEntry>): int {
    if |es| == 0 then 0 else MeanOrZero(Truthies(es, PulseOf))
  }

  /** `getMedicationCount()`: entries naming a (nonempty) medication. */
  predicate HasMedication(e: HealthEntry) {
    e.medication.Some? && e.medication.value != ""
  }

  function MedicationCount(es: seq<HealthEntry>): (n: nat)
    ensures n <= |es|
  {
    Count(es, HasMedication)
  }

  /** `getAverageMood()`: the same zero-or-rounded-mean rule over the moods. */
  function AverageMood(es: seq<HealthEntry>): int {
    MeanOrZero(Truthies(es, MoodOf))
  }

  lemma TruthiesConcat(a: seq<HealthEntry>, b: seq<HealthEntry>, get: HealthEntry -> Option<int>)
    ensures Truthies(a + b, get) == Truthies(a, get) + Truthies(b, get)
  {
    var p := TruthyBy(get);
    FilterConcat(a, b, p);
    var fa := Filter(a, p);
    var fb := Filter(b, p);
    assert forall i :: 0 <= i < |fa| ==> fa[i] in fa && p(fa[i]);
    assert forall i :: 0 <= i < |fb| ==> fb[i] in fb && p(fb[i]);
    ValuesOfConcat(fa, fb, get);
  }

  lemma ValuesOfConcat(x: seq<HealthEntry>, y: seq<HealthEntry>, get: HealthEntry -> Option<int>)
    requires forall i :: 0 <= i < |x| ==> get(x[i]).Some? && get(x[i]).value != 0
    requires forall i :: 0 <= i < |y| ==> get(y[i]).Some? && get(y[i]).value != 0
    ensures forall i :: 0 <= i < |x + y| ==> get((x + y)[i]).Some? && get((x + y)[i]).value != 0
    ensures ValuesOf(x + y, get) == ValuesOf(x, get) + ValuesOf(y, get)
  {
    assert forall i :: 0 <= i < |x + y| ==> (x + y)[i] == if i < |x| then x[i] else y[i - |x|];
  }

  lemma TruthiesSingle(e: HealthEntry, get: HealthEntry -> Option<int>)
    ensures Truthies([e], get) == if H.Truthy(get(e)) then [get(e).value] else []
  {
    var p := TruthyBy(get);
    assert p(e) <==> H.Truthy(get(e));
    if p(e) {
      assert Filter([e], p) == [e];
    } else {
      assert Filter([e], p) == [];
    }
  }

  /** The filter-then-map reading of the pulses agrees with the averaging pass of the
      error logger: the home screen and the logger compute the same mean. */
  lemma {:induction false} PulsesAgree(es: seq<HealthEntry>)
    ensures Truthies(es, PulseOf) == H.Contributions(es, H.Pulse)
  {
    if |es| > 0 {
      var init := es[..|es| - 1];
      var last := es[|es| - 1];
      assert es == init + [last];
      PulsesAgree(init);
      TruthiesConcat(init, [last], PulseOf);
      TruthiesSingle(last, PulseOf);
      var get := PulseOf;
      assert get(last) == H.Reading(last, H.Pulse);
    }
  }

  lemma AveragePulseAgrees(es: seq<HealthEntry>)
    ensures AveragePulse(es) == H.Average(es, H.Pulse)
  {
    PulsesAgree(es);
  }

  /** Medication count grows by one exactly when the added entry names a medication. */
  lemma MedicationCountAppend(es: seq<HealthEntry>, e: HealthEntry)
    ensures MedicationCount(es + [e]) == MedicationCount(es) + (if HasMedication(e) then 1 else 0)
  {
    FilterConcat(es, [e], HasMedication);
  }

  lemma {:induction false} SumWithin(xs: seq<int>, lo: int, hi: int)
    requires forall i :: 0 <= i < |xs| ==> lo <= xs[i] <= hi
    ensures |xs| * lo <= Sum(xs) <= |xs| * hi
  {
    if |xs| > 0 {
      var n := |xs| - 1;
      SumWithin(xs[..n], lo, hi);
      assert forall i :: 0 <= i < n ==> xs[..n][i] == xs[i];
      assert Sum(xs) == Sum(xs[..n]) + xs[n] && lo <= xs[n] <= hi;
      MulSucc(n, lo);
      MulSucc(n, hi);
    }
  }

  lemma MulSucc(n: int, c: int)
    ensures (n + 1) * c == n * c + c
  {
  }

  /** A rounded mean of values in [lo, hi] stays in [lo, hi]: the mood average is a mood. */
  lemma MeanWithin(xs: seq<int>, lo: int, hi: int)
    requires |xs| > 0
    requires forall i :: 0 <= i < |xs| ==> lo <= xs[i] <= hi
    ensures lo <= MeanOrZero(xs) <= hi
  {
    SumWithin(xs, lo, hi);
    RoundedWithin(|xs|, Sum(xs), MeanOrZero(xs), lo, hi);
  }

  /** The arithmetic core: a sum of n values in [lo, hi], rounded after division by n. */
  lemma RoundedWithin(n: int, sum: int, r: int, lo: int, hi: int)
    requires n > 0 && n * lo <= sum <= n * hi
    requires 2 * sum - n < 2 * n * r <= 2 * sum + n
    ensures lo <= r <= hi
  {
    assert n * (2 * (r - lo) + 1) > 0 by {
      assert 2 * n * r > 2 * n * lo - n;
    }
    PositiveFactor(n, 2 * (r - lo) + 1);
    assert n * (2 * (r - hi) - 1) <= 0 by {
      assert 2 * n * r <= 2 * n * hi + n;
    }
    NonPositiveFactor(n, 2 * (r - hi) - 1);
  }

  lemma PositiveFactor(n: int, m: int)
    requires n > 0 && n * m > 0
    ensures m > 0
  {
  }

  lemma NonPositiveFactor(n: int, m: int)
    requires n > 0 && n * m <= 0
    ensures m <= 0
  {
  }

  lemma AverageMoodIsMood(es: seq<HealthEntry>)
    requires forall e :: e in es && e.mood.Some? ==> 1 <= e.mood.value <= 10
    ensures Truthies(es, MoodOf) == [] ==> AverageMood(es) == 0
    ensures Truthies(es, MoodOf) != [] ==> 1 <= AverageMood(es) <= 10
  {
    var f := Filter(es, TruthyBy(MoodOf));
    var xs := Truthies(es, MoodOf);
    if xs != [] {
      forall i | 0 <= i < |xs| ensures 1 <= xs[i] <= 10 {
        assert f[i] in es;
      }
      MeanWithin(xs, 1, 10);
    }
  }

  /** `getMoodEmoji(mood)` as its band: 0 for at most 2, then 4, 6, 8, and 4 above 8. */
  function MoodBand(mood: int): (b: nat)
    ensures b <= 4
    ensures b == 0 <==> mood <= 2
    ensures b == 1 <==> 2 < mood <= 4
    ensures b == 2 <==> 4 < mood <= 6
    ensures b == 3 <==> 6 < mood <= 8
    ensures b == 4 <==> mood > 8
  {
    if mood <= 2 then 0
    else if mood <= 4 then 1
    else if mood <= 6 then 2
    else if mood <= 8 then 3
    else 4
  }

  /** A better mood never shows a sadder face. */
  lemma MoodBandMonotone(m1: int, m2: int)
    requires m1 <= m2
    ensures MoodBand(m1) <= MoodBand(m2)
  {
  }

  /** The three figures of the daily overview card. */
  datatype DailyFigures = DailyFigures(avgPulse: int, medCount: nat, avgMood: int)

  function DailyOverview(s: S.Store, today: string): (r: DailyFigures)
    ensures r.avgPulse == H.Average(S.EntriesByDate(s, today), H.Pulse)
    ensures r.medCount <= |S.EntriesByDate(s, today)|
    ensures r.medCount == MedicationCount(S.EntriesByDate(s, today))
    ensures r.avgMood == AverageMood(S.EntriesByDate(s, today))
  {
    var todays := S.EntriesByDate(s, today);
    AveragePulseAgrees(todays);
    DailyFigures(AveragePulse(todays), MedicationCount(todays), AverageMood(todays))
  }

  // ---------------------------------------------------------------------------
  // Water intake

  const DailyGoal: int := 2500

  /** `todayDrinks.reduce((sum, e) => sum + e.amount, 0)`. */
  function DrinkTotal(ds: seq<DrinkEntry>): int {
    if |ds| == 0 then 0 else DrinkTotal(ds[..|ds| - 1]) + ds[|ds| - 1].amount
  }

  lemma {:induction false} DrinkTotalConcat(a: seq<DrinkEntry>, b: seq<DrinkEntry>)
    ensures DrinkTotal(a + b) == DrinkTotal(a) + DrinkTotal(b)
  {
    if |b| == 0 {
      assert a + b == a;
    } else {
      assert (a + b)[..|a + b| - 1] == a + b[..|b| - 1];
      DrinkTotalConcat(a, b[..|b| - 1]);
    }
  }

  /** `Math.min(total / 2500 * 100, 100)`: the goal bar, capped at 100 percent. */
  function DrinkProgress(total: int): (p: real)
    ensures p <= 100.0
    ensures p == 100.0 <==> total >= DailyGoal
    ensures total >= 0 ==> p >= 0.0
    ensures total < DailyGoal ==> p * 25.0 == total as real
  {
    var raw := total as real / 2500.0 * 100.0;
    if raw < 100.0 then raw else 100.0
  }

  /** `handleAddDrink(amount)`: one entry for today with the given amount. */
  function AddDrink(s: S.Store, amount: int, id: string, today: string, time: string): (r: S.Store)
    ensures r.drinkEntries == s.drinkEntries + [DrinkEntry(id, today, time, amount)]
    ensures r == s.(drinkEntries := r.drinkEntries)
  {
    S.AddDrinkEntry(s, DrinkEntry(id, today, time, amount))
  }

  /** A quick-add raises today's total by its amount and leaves every other day's total alone. */
  lemma AddDrinkRaisesToday(s: S.Store, amount: int, id: string, today: string, time: string, day: string)
    ensures var r := AddDrink(s, amount, id, today, time);
      DrinkTotal(S.DrinkEntriesByDate(r, day))
      == DrinkTotal(S.DrinkEntriesByDate(s, day)) + (if day == today then amount else 0)
  {
    var d := DrinkEntry(id, today, time, amount);
    Keyed.SelectAfterAppend(s.drinkEntries, S.DrinkDate, d, day);
    DrinkTotalConcat(S.DrinkEntriesByDate(s, day), if day == today then [d] else []);
    assert [d][..0] == [];
  }
}
