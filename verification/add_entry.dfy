/**
  The add-entry screen (app/add-entry.tsx): the form of text inputs, the
  check that at least a resting pulse or a resting systolic value was typed,
  the entry built from the inputs (an empty input is an absent field), the
  health warnings shown when a profile exists, and the save.

  `parseInt` is a parameter; the id (`Date.now()`) and the date (the UTC
  day of the clock) are parameters too.
 */
module AddEntry {
  import opened Common
  import opened Types
  import Keyed
  import S = Store
  import Health

  /** The text inputs of the form, in screen order. */
  datatype EntryForm = EntryForm(
    time: string, medication: string, medicationAmount: string,
    pulseResting: string, pulseSitting: string, pulseStanding: string,
    systolicResting: string, diastolicResting: string,
    systolicSitting: string, diastolicSitting: string,
    systolicStanding: string, diastolicStanding: string,
    notes: string)

  datatype Alert = NoReading

  /** `text ? parseInt(text) : undefined`. */
  function ReadingOf(text: string, parseInt: string -> int): (r: Option<int>)
    ensures r.None? <==> text == ""
    ensures r.Some? ==> r.value == parseInt(text)
  {
    if text == "" then None else Some(parseInt(text))
  }

  /** The entry `handleSave` builds; mood and activity level are never set here. */
  function EntryOf(f: EntryForm, id: string, date: string, parseInt: string -> int): (e: HealthEntry)
    ensures e.id == id && e.date == date && e.time == f.time
    ensures e.medication == NonEmpty(f.medication) && e.medicationAmount == NonEmpty(f.medicationAmount)
    ensures e.notes == NonEmpty(f.notes)
    ensures e.pulseResting == ReadingOf(f.pulseResting, parseInt)
    ensures e.systolicResting == ReadingOf(f.systolicResting, parseInt)
    ensures e.diastolicResting == ReadingOf(f.diastolicResting, parseInt)
    ensures e.mood.None? && e.activityLevel.None?
  {
    HealthEntry(
      id, date, f.time, NonEmpty(f.medication), NonEmpty(f.medicationAmount),
      ReadingOf(f.pulseResting, parseInt), ReadingOf(f.pulseSitting, parseInt), ReadingOf(f.pulseStanding, parseInt),
      ReadingOf(f.systolicResting, parseInt), ReadingOf(f.diastolicResting, parseInt),
      ReadingOf(f.systolicSitting, parseInt), ReadingOf(f.diastolicSitting, parseInt),
      ReadingOf(f.systolicStanding, parseInt), ReadingOf(f.diastolicStanding, parseInt),
      NonEmpty(f.notes), None, None)
  }

  /** `handleSave`: the new store and the warnings shown before the success message. */
  function Save(s: S.Store, f: EntryForm, id: string, date: string, parseInt: string -> int)
    : (r: Result<(S.Store, seq<Health.Warning>), Alert>)
    ensures r.Failure? <==> f.pulseResting == "" && f.systolicResting == ""
    ensures r.Failure? ==> r.error == NoReading
    ensures r.Success? ==> r.value.0 == S.AddHealthEntry(s, EntryOf(f, id, date, parseInt))
    ensures r.Success? && s.userProfile.None? ==> r.value.1 == []
    ensures r.Success? && s.userProfile.Some? ==>
      r.value.1 == Health.CheckHealthWarnings(EntryOf(f, id, date, parseInt), s.userProfile.value)
  {
    if f.pulseResting == "" && f.systolicResting == "" then Failure(NoReading)
    else
      var e := EntryOf(f, id, date, parseInt);
      var warnings := if s.userProfile.Some? then Health.CheckHealthWarnings(e, s.userProfile.value) else [];
      Success((S.AddHealthEntry(s, e), warnings))
  }

  /** Every saved entry carries a resting pulse or a resting systolic value, and the day's
      entries afterwards are the earlier ones plus the new one. */
  lemma SavedEntryHasReading(s: S.Store, f: EntryForm, id: string, date: string, parseInt: string -> int)
    requires Save(s, f, id, date, parseInt).Success?
    ensures var after := Save(s, f, id, date, parseInt).value.0;
      var e := after.healthEntries[|after.healthEntries| - 1];
      && (e.pulseResting.Some? || e.systolicResting.Some?)
      && S.EntriesByDate(after, date) == S.EntriesByDate(s, date) + [e]
  {
    var e := EntryOf(f, id, date, parseInt);
    var after := S.AddHealthEntry(s, e);
    assert after.healthEntries == s.healthEntries + [e];
    var p := Keyed.KeyIs(S.EntryDate, date);
    FilterConcat(s.healthEntries, [e], p);
    assert p(e) && Filter([e], p) == [e];
    assert S.EntriesByDate(after, date) == Filter(after.healthEntries, p);
    assert S.EntriesByDate(s, date) == Filter(s.healthEntries, p);
  }

  /** A warning is raised only for a reading that was actually typed. */
  lemma WarningsNeedTypedReading(s: S.Store, f: EntryForm, id: string, date: string, parseInt: string -> int)
    requires Save(s, f, id, date, parseInt).Success?
    ensures f.pulseResting == "" ==>
      forall w :: w in Save(s, f, id, date, parseInt).value.1 ==> !(w.HighPulse? || w.LowPulse?)
    ensures f.systolicResting == "" ==>
      forall w :: w in Save(s, f, id, date, parseInt).value.1 ==> !(w.HighSystolic? || w.LowSystolic?)
  {
  }

  /** Deleting the entry just saved under a fresh id restores the store. */
  lemma SaveThenDelete(s: S.Store, f: EntryForm, id: string, date: string, parseInt: string -> int)
    requires Save(s, f, id, date, parseInt).Success?
    requires forall e :: e in s.healthEntries ==> e.id != id
    ensures S.DeleteHealthEntry(Save(s, f, id, date, parseInt).value.0, id) == s
  {
    var e := EntryOf(f, id, date, parseInt);
    assert !Keyed.HasKey(s.healthEntries, S.EntryId, S.EntryId(e)) by {
      forall i | 0 <= i < |s.healthEntries| ensures S.EntryId(s.healthEntries[i]) != id {
        assert s.healthEntries[i] in s.healthEntries;
      }
    }
    Keyed.RemoveUndoesAppend(s.healthEntries, S.EntryId, e);
  }
}
