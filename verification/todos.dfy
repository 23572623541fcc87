/**
  The to-do screen (app/other/todos.tsx): creating and deleting lists,
  adding, completing and deleting tasks of the selected list, and the task
  view sorted open-before-done, then by due date.

  The selection, fresh ids and timestamps are parameters; the due date and
  time the pickers produce arrive already formatted ("YYYY-MM-DD", "HH:MM")
  or absent. The due-date comparison (`localeCompare`) is an abstract relation.
 */
module Todos {
  import opened Common
  import opened Types
  import Keyed
  import S = Store
  import Sorting

  datatype Alert = ListNameMissing | TaskTitleMissing

  function TaskId(t: TodoTask): string { t.id }

  /** `todoLists.find(l => l.id === selectedListId)`. */
  function SelectedList(s: S.Store, sel: Option<string>): (r: Option<TodoList>)
    ensures r.Some? ==> sel.Some? && r.value in s.todoLists && r.value.id == sel.value
    ensures r.None? <==> sel.None? || forall l :: l in s.todoLists ==> l.id != sel.value
  {
    match sel
    case None => None
    case Some(id) =>
      var key := S.TodoListId;
      assert forall l :: key(l) == l.id;
      Find(s.todoLists, Keyed.KeyIs(key, id))
  }

  // ---------------------------------------------------------------------------
  // Lists

  /** `handleCreateList`: a nonblank name makes a new list with no tasks, at the end. */
  function CreateList(s: S.Store, name: string, id: string, now: string): (r: Result<S.Store, Alert>)
    ensures r.Failure? <==> Blank(name)
    ensures r.Failure? ==> r.error == ListNameMissing
    ensures r.Success? ==>
      && |r.value.todoLists| == |s.todoLists| + 1
      && r.value.todoLists[..|s.todoLists|] == s.todoLists
      && var l := r.value.todoLists[|s.todoLists|];
         l.id == id && l.name == name && l.createdAt == now && l.tasks == []
    ensures r.Success? ==> r.value == s.(todoLists := r.value.todoLists)
  {
    if Blank(name) then Failure(ListNameMissing)
    else Success(S.AddTodoList(s, TodoList(id, name, now, [])))
  }

  /** A new list keeps every task filed under its own list. */
  lemma CreateKeepsFiled(s: S.Store, name: string, id: string, now: string)
    requires S.TasksFiled(s.todoLists)
    ensures CreateList(s, name, id, now).Success? ==> S.TasksFiled(CreateList(s, name, id, now).value.todoLists)
  {
  }

  /** The confirmed delete of `handleDeleteList`, clearing the selection if it was that list. */
  function DeleteList(s: S.Store, sel: Option<string>, id: string): (r: (S.Store, Option<string>))
    ensures forall l :: l in r.0.todoLists <==> l in s.todoLists && l.id != id
    ensures r.0 == s.(todoLists := r.0.todoLists)
    ensures r.1.None? <==> sel.None? || sel.value == id
    ensures r.1.Some? ==> r.1 == sel
  {
    (S.DeleteTodoList(s, id), if sel == Some(id) then None else sel)
  }

  lemma CreateThenDeleteList(s: S.Store, name: string, id: string, now: string, sel: Option<string>)
    requires !Blank(name)
    requires forall l :: l in s.todoLists ==> l.id != id
    ensures DeleteList(CreateList(s, name, id, now).value, sel, id).0 == s
  {
    Keyed.RemoveUndoesAppend(s.todoLists, S.TodoListId, TodoList(id, name, now, []));
  }

  // ---------------------------------------------------------------------------
  // Tasks of the selected list

  /** `handleAddTask`: append one open task, filed under the selected list. No points are awarded. */
  function AddTask(s: S.Store, sel: Option<string>, title: string, dueDate: Option<string>, dueTime: Option<string>, id: string)
    : (r: Result<S.Store, Alert>)
    ensures r.Failure? <==> Blank(title) || SelectedList(s, sel).None?
    ensures r.Failure? ==> r.error == TaskTitleMissing
    ensures r.Success? ==>
      var l := SelectedList(s, sel).value;
      && SelectedList(r.value, sel) == Some(l.(tasks := l.tasks + [TodoTask(id, title, false, dueDate, dueTime, l.id)]))
      && |r.value.todoLists| == |s.todoLists|
      && (forall i :: 0 <= i < |s.todoLists| && s.todoLists[i].id != l.id ==> r.value.todoLists[i] == s.todoLists[i])
      && r.value == s.(todoLists := r.value.todoLists)
  {
    match SelectedList(s, sel)
    case None => Failure(TaskTitleMissing)
    case Some(l) =>
      if Blank(title) then Failure(TaskTitleMissing)
      else
        var updated := l.(tasks := l.tasks + [TodoTask(id, title, false, dueDate, dueTime, l.id)]);
        Keyed.ReplaceThenFind(s.todoLists, S.TodoListId, updated);
        Success(S.UpdateTodoList(s, updated))
  }

  /** A list edited through the selection keeps its tasks filed: every list with that id becomes the edited one. */
  lemma EditKeepsFiled(s: S.Store, l: TodoList)
    requires S.TasksFiled(s.todoLists)
    requires forall t :: t in l.tasks ==> t.listId == l.id
    ensures S.TasksFiled(S.UpdateTodoList(s, l).todoLists)
  {
    var r := S.UpdateTodoList(s, l).todoLists;
    forall m, t | m in r && t in m.tasks ensures t.listId == m.id {
      var i :| 0 <= i < |r| && r[i] == m;
      assert s.todoLists[i] in s.todoLists;
    }
  }

  lemma AddTaskKeepsFiled(s: S.Store, sel: Option<string>, title: string, dueDate: Option<string>, dueTime: Option<string>, id: string)
    requires S.TasksFiled(s.todoLists)
    ensures AddTask(s, sel, title, dueDate, dueTime, id).Success? ==>
      S.TasksFiled(AddTask(s, sel, title, dueDate, dueTime, id).value.todoLists)
  {
    if AddTask(s, sel, title, dueDate, dueTime, id).Success? {
      var l := SelectedList(s, sel).value;
      EditKeepsFiled(s, l.(tasks := l.tasks + [TodoTask(id, title, false, dueDate, dueTime, l.id)]));
    }
  }

  /** `tasks.map(t => t.id === taskId ? { ...t, completed: !t.completed } : t)`. */
  function FlipCompleted(tasks: seq<TodoTask>, taskId: string): (r: seq<TodoTask>)
    ensures |r| == |tasks|
    ensures forall i :: 0 <= i < |tasks| && tasks[i].id == taskId ==>
      r[i] == tasks[i].(completed := !tasks[i].completed)
    ensures forall i :: 0 <= i < |tasks| && tasks[i].id != taskId ==> r[i] == tasks[i]
  {
    seq(|tasks|, i requires 0 <= i < |tasks| =>
      if tasks[i].id == taskId then tasks[i].(completed := !tasks[i].completed) else tasks[i])
  }

  /** `handleToggleTask`: without a selected list nothing happens. */
  function ToggleTask(s: S.Store, sel: Option<string>, taskId: string): (r: S.Store)
    ensures SelectedList(s, sel).None? ==> r == s
    ensures SelectedList(s, sel).Some? ==>
      var l := SelectedList(s, sel).value;
      SelectedList(r, sel) == Some(l.(tasks := FlipCompleted(l.tasks, taskId)))
    ensures r == s.(todoLists := r.todoLists)
  {
    match SelectedList(s, sel)
    case None => s
    case Some(l) =>
      var updated := l.(tasks := FlipCompleted(l.tasks, taskId));
      Keyed.ReplaceThenFind(s.todoLists, S.TodoListId, updated);
      S.UpdateTodoList(s, updated)
  }

  /** Completing a task twice restores the store (list ids being distinct). */
  lemma ToggleTwice(s: S.Store, sel: Option<string>, taskId: string)
    requires Keyed.UniqueKeys(s.todoLists, S.TodoListId)
    ensures ToggleTask(ToggleTask(s, sel, taskId), sel, taskId) == s
  {
    if SelectedList(s, sel).Some? {
      var l := SelectedList(s, sel).value;
      var l1 := l.(tasks := FlipCompleted(l.tasks, taskId));
      assert FlipCompleted(l1.tasks, taskId) == l.tasks;
      Keyed.ReplaceRestores(s.todoLists, S.TodoListId, l1, l);
    }
  }

  /** The confirmed delete of `handleDeleteTask`: the selected list keeps every task with another id. */
  function DeleteTask(s: S.Store, sel: Option<string>, taskId: string): (r: S.Store)
    ensures SelectedList(s, sel).None? ==> r == s
    ensures SelectedList(s, sel).Some? ==>
      var l := SelectedList(s, sel).value;
      && SelectedList(r, sel).Some?
      && SelectedList(r, sel).value == l.(tasks := SelectedList(r, sel).value.tasks)
      && (forall t :: t in SelectedList(r, sel).value.tasks <==> t in l.tasks && t.id != taskId)
      && (forall t :: multiset(SelectedList(r, sel).value.tasks)[t]
                       == if t.id != taskId then multiset(l.tasks)[t] else 0)
    ensures r == s.(todoLists := r.todoLists)
  {
    match SelectedList(s, sel)
    case None => s
    case Some(l) =>
      var updated := l.(tasks := Keyed.RemoveById(l.tasks, TaskId, taskId));
      Keyed.ReplaceThenFind(s.todoLists, S.TodoListId, updated);
      S.UpdateTodoList(s, updated)
  }

  /** Toggling and deleting keep every task filed under its own list. */
  lemma ToggleDeleteKeepFiled(s: S.Store, sel: Option<string>, taskId: string)
    requires S.TasksFiled(s.todoLists)
    ensures S.TasksFiled(ToggleTask(s, sel, taskId).todoLists)
    ensures S.TasksFiled(DeleteTask(s, sel, taskId).todoLists)
  {
    if SelectedList(s, sel).Some? {
      var l := SelectedList(s, sel).value;
      var flipped := FlipCompleted(l.tasks, taskId);
      forall t | t in flipped ensures t.listId == l.id {
        var i :| 0 <= i < |flipped| && flipped[i] == t;
        assert l.tasks[i] in l.tasks;
      }
      EditKeepsFiled(s, l.(tasks := flipped));
      EditKeepsFiled(s, l.(tasks := Keyed.RemoveById(l.tasks, TaskId, taskId)));
    }
  }

  // ---------------------------------------------------------------------------
  // The sorted task view

  predicate IsOpen(t: TodoTask) { !t.completed }

  /** JavaScript truthiness of an optional string. */
  predicate HasDue(d: Option<string>) { d.Some? && d.value != "" }

  /** The comparator of `sortedTasks` as "comes no later than": open tasks first; two tasks
      that both carry a due date by that date; any other pair counts as equal. */
  function TaskBefore(dateLe: (string, string) -> bool): (TodoTask, TodoTask) -> bool {
    (a: TodoTask, b: TodoTask) =>
      if a.completed != b.completed then !a.completed
      else if HasDue(a.dueDate) && HasDue(b.dueDate) then dateLe(a.dueDate.value, b.dueDate.value)
      else true
  }

  /** Open tasks always precede completed ones under the comparator. */
  lemma OpenFirst(dateLe: (string, string) -> bool)
    ensures Sorting.Separates(TaskBefore(dateLe), IsOpen)
  {
  }

  /** Because a task without a due date ties with everything, the comparator is not a consistent
      order: a dated task, an undated one and an earlier-dated one form a cycle. */
  lemma NotTransitive(dateLe: (string, string) -> bool, late: string, early: string, a: TodoTask, b: TodoTask, c: TodoTask)
    requires late != "" && early != "" && !dateLe(late, early)
    requires !a.completed && !b.completed && !c.completed
    requires a.dueDate == Some(late) && b.dueDate.None? && c.dueDate == Some(early)
    ensures TaskBefore(dateLe)(a, b) && TaskBefore(dateLe)(b, c) && !TaskBefore(dateLe)(a, c)
  {
    assert !HasDue(b.dueDate);
  }

  /** `sortedTasks`, read as a stable insertion under the comparator. */
  function SortedTasks(l: TodoList, dateLe: (string, string) -> bool): seq<TodoTask> {
    Sorting.SortBy(l.tasks, TaskBefore(dateLe))
  }

  /** The view holds the same tasks with every open task above every completed one. */
  lemma SortedTasksView(l: TodoList, dateLe: (string, string) -> bool)
    ensures multiset(SortedTasks(l, dateLe)) == multiset(l.tasks)
    ensures Sorting.Partitioned(SortedTasks(l, dateLe), IsOpen)
  {
    OpenFirst(dateLe);
    Sorting.SortPartitioned(l.tasks, TaskBefore(dateLe), IsOpen);
  }
}
