/**
  The reminders form sheet (app/formsheet.tsx): the sheet keeps a local copy
  of the stored reminders, and every edit (add, toggle, delete, new time)
  rewrites the local copy and pushes the same list to the store. Times are
  "HH:MM" strings written with two zero-padded fields and read back by
  splitting on ':'.

  The picked clock time arrives as an hour and a minute; the fresh id is a parameter.
 */
module Reminders {
  import opened Common
  import opened Types
  import Keyed
  import S = Store

  const Weekdays: seq<string> := ["Monday", "Tuesday", "Wednesday", "Thursday", "Friday", "Saturday", "Sunday"]
  const DefaultTime: string := "09:00"

  /** The sheet's own state: its copy of the reminders and the reminder whose time is being edited. */
  datatype Sheet = Sheet(local: seq<Reminder>, editing: Option<string>)

  function ReminderId(r: Reminder): string { r.id }

  /** Every handler ends with `setLocalReminders(updated); updateReminders(updated)`. */
  function Push(s: S.Store, sheet: Sheet, updated: seq<Reminder>): (r: (S.Store, Sheet))
    ensures r.0.reminders == updated && r.1.local == updated
    ensures r.0 == s.(reminders := updated) && r.1 == sheet.(local := updated)
  {
    (S.UpdateReminders(s, updated), sheet.(local := updated))
  }

  /** The sheet and the store agree. */
  predicate InSync(s: S.Store, sheet: Sheet) {
    s.reminders == sheet.local
  }

  // ---------------------------------------------------------------------------
  // Add, toggle, delete

  /** `handleAddReminder(type)`: a new enabled reminder at 09:00 on every weekday, at the end. */
  function AddReminder(s: S.Store, sheet: Sheet, kind: ReminderKind, id: string): (r: (S.Store, Sheet))
    ensures InSync(r.0, r.1)
    ensures |r.1.local| == |sheet.local| + 1 && r.1.local[..|sheet.local|] == sheet.local
    ensures var n := r.1.local[|sheet.local|];
      n.id == id && n.kind == kind && n.time == DefaultTime && n.enabled && n.days == Some(Weekdays)
    ensures r.1.editing == sheet.editing && r.0 == s.(reminders := r.0.reminders)
  {
    var updated := sheet.local + [Reminder(id, kind, DefaultTime, true, Some(Weekdays))];
    assert updated[..|sheet.local|] == sheet.local;
    Push(s, sheet, updated)
  }

  /** `handleToggleReminder(id)`: flip `enabled` on the reminders with that id only. */
  function ToggleReminder(s: S.Store, sheet: Sheet, id: string): (r: (S.Store, Sheet))
    ensures InSync(r.0, r.1)
    ensures |r.1.local| == |sheet.local|
    ensures forall i :: 0 <= i < |sheet.local| ==>
      r.1.local[i] == if sheet.local[i].id == id then sheet.local[i].(enabled := !sheet.local[i].enabled)
                      else sheet.local[i]
    ensures r.1.editing == sheet.editing && r.0 == s.(reminders := r.0.reminders)
  {
    var updated := seq(|sheet.local|, i requires 0 <= i < |sheet.local| =>
      if sheet.local[i].id == id then sheet.local[i].(enabled := !sheet.local[i].enabled) else sheet.local[i]);
    Push(s, sheet, updated)
  }

  lemma ToggleTwice(s: S.Store, sheet: Sheet, id: string)
    ensures var once := ToggleReminder(s, sheet, id);
      ToggleReminder(once.0, once.1, id).1 == sheet
  {
    var twice := ToggleReminder(ToggleReminder(s, sheet, id).0, ToggleReminder(s, sheet, id).1, id).1;
    assert twice.local == sheet.local;
  }

  /** `handleDeleteReminder(id)`. */
  function DeleteReminder(s: S.Store, sheet: Sheet, id: string): (r: (S.Store, Sheet))
    ensures InSync(r.0, r.1)
    ensures forall x :: x in r.1.local <==> x in sheet.local && x.id != id
    ensures forall x :: multiset(r.1.local)[x] == if x.id != id then multiset(sheet.local)[x] else 0
    ensures r.1.editing == sheet.editing && r.0 == s.(reminders := r.0.reminders)
  {
    Push(s, sheet, Keyed.RemoveById(sheet.local, ReminderId, id))
  }

  /** Deleting a reminder just added under a fresh id restores the sheet. */
  lemma AddThenDelete(s: S.Store, sheet: Sheet, kind: ReminderKind, id: string)
    requires forall x :: x in sheet.local ==> x.id != id
    ensures var added := AddReminder(s, sheet, kind, id);
      DeleteReminder(added.0, added.1, id).1 == sheet
  {
    Keyed.RemoveUndoesAppend(sheet.local, ReminderId, Reminder(id, kind, DefaultTime, true, Some(Weekdays)));
  }

  // ---------------------------------------------------------------------------
  // Times

  /** `${String(h).padStart(2, '0')}:${String(m).padStart(2, '0')}`. */
  function FormatTime(h: int, m: int): (t: string)
    requires 0 <= h <= 23 && 0 <= m <= 59
    ensures |t| == 5 && t[2] == ':'
    ensures IsDigit(t[0]) && IsDigit(t[1]) && IsDigit(t[3]) && IsDigit(t[4])
  {
    Pad2(h) + ":" + Pad2(m)
  }

  /** `s.split(':')`. */
  function Split(s: string): (r: seq<string>)
    ensures |r| >= 1
  {
    if |s| == 0 then [""]
    else
      var rest := Split(s[1..]);
      if s[0] == ':' then [""] + rest else [[s[0]] + rest[0]] + rest[1..]
  }

  /** A colon-free prefix stays glued to the first piece. */
  lemma {:induction false} SplitPrefix(a: string, t: string)
    requires forall i :: 0 <= i < |a| ==> a[i] != ':'
    ensures Split(a + t) == [a + Split(t)[0]] + Split(t)[1..]
  {
    if |a| == 0 {
      assert a + t == t && a + Split(t)[0] == Split(t)[0];
      assert Split(t) == [Split(t)[0]] + Split(t)[1..];
    } else {
      SplitPrefix(a[1..], t);
      var rest := Split((a + t)[1..]);
      assert (a + t)[1..] == a[1..] + t;
      assert rest[0] == a[1..] + Split(t)[0] && rest[1..] == Split(t)[1..];
      assert (a + t)[0] == a[0] && a[0] != ':';
      assert Split(a + t) == [[a[0]] + rest[0]] + rest[1..];
      assert [a[0]] + (a[1..] + Split(t)[0]) == a + Split(t)[0];
    }
  }

  /** `Number(piece)` for the pieces `FormatTime` writes: a run of digits, or "" which is 0.
      Any other piece is written None here; JavaScript's `Number` would also accept signs,
      decimals and surrounding spaces, which a formatted time never holds. */
  function NumberOf(piece: string): Option<int> {
    if forall i :: 0 <= i < |piece| ==> IsDigit(piece[i]) then Some(DigitsValue(piece)) else None
  }

  /** `const [hours, minutes] = time.split(':').map(Number)`; a missing piece is undefined (None). */
  function ParseTime(t: string): (r: (Option<int>, Option<int>)) {
    var pieces := Split(t);
    (NumberOf(pieces[0]), if |pieces| > 1 then NumberOf(pieces[1]) else None)
  }

  /** Reading a written time back gives the picked hour and minute. */
  lemma TimeRoundTrip(h: int, m: int)
    requires 0 <= h <= 23 && 0 <= m <= 59
    ensures ParseTime(FormatTime(h, m)) == (Some(h), Some(m))
  {
    var hh := Pad2(h);
    var mm := Pad2(m);
    assert FormatTime(h, m) == hh + (":" + mm);
    SplitPrefix(hh, ":" + mm);
    SplitPrefix(mm, "");
    assert mm + "" == mm;
    assert (":" + mm)[1..] == mm;
    assert Split(":" + mm) == [""] + Split(mm);
    assert Split(mm) == [mm];
    var tail := Split(":" + mm);
    assert tail == [""] + [mm];
    assert tail[0] == "" && tail[1..] == [mm];
    assert hh + tail[0] == hh;
    assert Split(FormatTime(h, m)) == [hh, mm];
    Pad2RoundTrip(h);
    Pad2RoundTrip(m);
    assert NumberOf(hh) == Some(h);
    assert NumberOf(mm) == Some(m);
  }

  /** The default time is nine o'clock. */
  lemma DefaultTimeIsNine()
    ensures FormatTime(9, 0) == DefaultTime
    ensures ParseTime(DefaultTime) == (Some(9), Some(0))
  {
    TimeRoundTrip(9, 0);
  }

  /** `openTimeEditor(reminder)`: remember which reminder is edited and preset the picker from its time. */
  function OpenTimeEditor(sheet: Sheet, rem: Reminder): (r: (Sheet, (Option<int>, Option<int>)))
    ensures r.0 == sheet.(editing := Some(rem.id))
    ensures r.1 == ParseTime(rem.time)
  {
    (sheet.(editing := Some(rem.id)), ParseTime(rem.time))
  }

  /** `handleTimeChange`: with a picked time and a reminder being edited (a nonempty id), that
      reminder gets the new "HH:MM" time and editing ends; otherwise nothing changes. */
  function ChangeTime(s: S.Store, sheet: Sheet, picked: Option<(int, int)>): (r: (S.Store, Sheet))
    requires picked.Some? ==> 0 <= picked.value.0 <= 23 && 0 <= picked.value.1 <= 59
    ensures picked.None? || sheet.editing.None? || sheet.editing.value == "" ==> r == (s, sheet)
    ensures picked.Some? && sheet.editing.Some? && sheet.editing.value != "" ==>
      && InSync(r.0, r.1)
      && r.1.editing.None?
      && |r.1.local| == |sheet.local|
      && forall i :: 0 <= i < |sheet.local| ==>
           r.1.local[i] == if sheet.local[i].id == sheet.editing.value
                           then sheet.local[i].(time := FormatTime(picked.value.0, picked.value.1))
                           else sheet.local[i]
  {
    if picked.None? || sheet.editing.None? || sheet.editing.value == "" then (s, sheet)
    else
      var t := FormatTime(picked.value.0, picked.value.1);
      var updated := seq(|sheet.local|, i requires 0 <= i < |sheet.local| =>
        if sheet.local[i].id == sheet.editing.value then sheet.local[i].(time := t) else sheet.local[i]);
      var pushed := Push(s, sheet, updated);
      (pushed.0, pushed.1.(editing := None))
  }

  /** Opening the editor on a reminder and picking a time: reading that reminder's time back
      gives the picked hour and minute. */
  lemma EditedTimeReadsBack(s: S.Store, sheet: Sheet, k: nat, h: int, m: int)
    requires k < |sheet.local| && sheet.local[k].id != ""
    requires 0 <= h <= 23 && 0 <= m <= 59
    ensures var ed := OpenTimeEditor(sheet, sheet.local[k]).0;
      ParseTime(ChangeTime(s, ed, Some((h, m))).1.local[k].time) == (Some(h), Some(m))
  {
    TimeRoundTrip(h, m);
  }

  // ---------------------------------------------------------------------------
  // The two sections

  predicate IsPulse(r: Reminder) { r.kind == PulseReminder }
  predicate IsMedication(r: Reminder) { r.kind == MedicationReminder }

  /** `pulseReminders` and `medReminders`: each reminder is in exactly one section. */
  lemma SectionsPartition(local: seq<Reminder>)
    ensures forall x :: x in local ==> (x in Filter(local, IsPulse) <==> !(x in Filter(local, IsMedication)))
    ensures |Filter(local, IsPulse)| + |Filter(local, IsMedication)| == |local|
  {
    FilterSplit(local, IsPulse, IsMedication);
  }
}
