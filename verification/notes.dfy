/**
  The notes screen (app/other/notes.tsx): creating a note, saving an edited
  note, and the newest-first note view.

  The date and time pickers' output arrives already formatted or absent;
  fresh ids and the creation timestamp are parameters, and reading a
  timestamp back (`new Date(createdAt).getTime()`) is the parameter `stamp`.
 */
module Notes {
  import opened Common
  import opened Types
  import Keyed
  import S = Store
  import Sorting

  datatype Alert = NoteIncomplete

  /** `handleCreateNote`: a title and a content are required; the note goes at the end. */
  function CreateNote(s: S.Store, title: string, content: string, date: Option<string>, time: Option<string>,
                      id: string, now: string): (r: Result<S.Store, Alert>)
    ensures r.Failure? <==> Blank(title) || Blank(content)
    ensures r.Failure? ==> r.error == NoteIncomplete
    ensures r.Success? ==>
      && |r.value.notes| == |s.notes| + 1
      && r.value.notes[..|s.notes|] == s.notes
      && r.value.notes[|s.notes|] == Note(id, title, content, now, date, time)
      && r.value == s.(notes := r.value.notes)
  {
    if Blank(title) || Blank(content) then Failure(NoteIncomplete)
    else Success(S.AddNote(s, Note(id, title, content, now, date, time)))
  }

  /** `handleUpdateNote`: the note being edited gets the form's title, content, date and time and
      keeps its id and creation time; without a note being edited the save is refused. */
  function UpdateNote(s: S.Store, editing: Option<Note>, title: string, content: string,
                      date: Option<string>, time: Option<string>): (r: Result<S.Store, Alert>)
    ensures r.Failure? <==> Blank(title) || Blank(content) || editing.None?
    ensures r.Failure? ==> r.error == NoteIncomplete
    ensures r.Success? ==>
      && |r.value.notes| == |s.notes|
      && (forall i :: 0 <= i < |s.notes| && s.notes[i].id != editing.value.id ==> r.value.notes[i] == s.notes[i])
      && (forall i :: 0 <= i < |s.notes| && s.notes[i].id == editing.value.id ==>
            && r.value.notes[i].id == editing.value.id
            && r.value.notes[i].createdAt == editing.value.createdAt
            && r.value.notes[i].title == title && r.value.notes[i].content == content
            && r.value.notes[i].date == date && r.value.notes[i].time == time)
      && r.value == s.(notes := r.value.notes)
  {
    if Blank(title) || Blank(content) || editing.None? then Failure(NoteIncomplete)
    else Success(S.UpdateNote(s, editing.value.(title := title, content := content, date := date, time := time)))
  }

  /** Saving an edit of a stored note and looking its id up finds the edited note. */
  lemma UpdateThenFind(s: S.Store, n: Note, title: string, content: string, date: Option<string>, time: Option<string>)
    requires n in s.notes && !Blank(title) && !Blank(content)
    ensures var key := S.NoteId;
      Find(UpdateNote(s, Some(n), title, content, date, time).value.notes, Keyed.KeyIs(key, n.id))
      == Some(n.(title := title, content := content, date := date, time := time))
  {
    var k :| 0 <= k < |s.notes| && s.notes[k] == n;
    assert S.NoteId(s.notes[k]) == n.id;
    Keyed.ReplaceThenFind(s.notes, S.NoteId, n.(title := title, content := content, date := date, time := time));
  }

  /** `handleEditNote` fills the form from the note; saving it unchanged leaves the store as it was. */
  lemma EditUnchangedRestores(s: S.Store, n: Note)
    requires Keyed.UniqueKeys(s.notes, S.NoteId) && n in s.notes
    requires !Blank(n.title) && !Blank(n.content)
    ensures UpdateNote(s, Some(n), n.title, n.content, n.date, n.time) == Success(s)
  {
    assert n.(title := n.title, content := n.content, date := n.date, time := n.time) == n;
    Keyed.ReplaceRestores(s.notes, S.NoteId, n, n);
    Keyed.ReplaceIdempotent(s.notes, S.NoteId, n);
  }

  /** Saving the same edit twice is the same as saving it once. */
  lemma UpdateIdempotent(s: S.Store, n: Note, title: string, content: string, date: Option<string>, time: Option<string>)
    requires !Blank(title) && !Blank(content)
    ensures var once := UpdateNote(s, Some(n), title, content, date, time).value;
      UpdateNote(once, Some(n), title, content, date, time).value == once
  {
    Keyed.ReplaceIdempotent(s.notes, S.NoteId, n.(title := title, content := content, date := date, time := time));
  }

  /** A note created under a fresh id and then deleted leaves the store as it was. */
  lemma CreateThenDelete(s: S.Store, title: string, content: string, date: Option<string>, time: Option<string>,
                         id: string, now: string)
    requires !Blank(title) && !Blank(content)
    requires forall m :: m in s.notes ==> m.id != id
    ensures S.DeleteNote(CreateNote(s, title, content, date, time, id, now).value, id) == s
  {
    S.DeleteUndoesAddNote(s, Note(id, title, content, now, date, time));
  }

  /** The comparator of `sortedNotes` (`stamp(b) - stamp(a)`) as "comes no later than": newer first. */
  function NewerFirst(stamp: string -> int): (Note, Note) -> bool {
    (a: Note, b: Note) => stamp(a.createdAt) >= stamp(b.createdAt)
  }

  lemma NewerFirstIsPreorder(stamp: string -> int)
    ensures Sorting.Total(NewerFirst(stamp)) && Sorting.Transitive(NewerFirst(stamp))
  {
  }

  /** `sortedNotes`. */
  function SortedNotes(notes: seq<Note>, stamp: string -> int): seq<Note> {
    Sorting.SortBy(notes, NewerFirst(stamp))
  }

  /** The view holds exactly the stored notes, newest first. */
  lemma SortedNotesView(notes: seq<Note>, stamp: string -> int)
    ensures multiset(SortedNotes(notes, stamp)) == multiset(notes)
    ensures forall i, j :: 0 <= i < j < |SortedNotes(notes, stamp)| ==>
      stamp(SortedNotes(notes, stamp)[i].createdAt) >= stamp(SortedNotes(notes, stamp)[j].createdAt)
  {
    NewerFirstIsPreorder(stamp);
    Sorting.SortSorted(notes, NewerFirst(stamp));
    var r := SortedNotes(notes, stamp);
    var le := NewerFirst(stamp);
    assert forall i, j :: 0 <= i < j < |r| ==> le(r[i], r[j]);
  }
}
