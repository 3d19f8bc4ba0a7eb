/** The detail page of one task: lookup, completion toggle, deletion, the overdue badge. */
module TaskDetails {
  import opened Common
  import opened Tasks
  import opened Storage

  /** `isOverdue`: an open task whose due day is before today. */
  predicate IsOverdue(t: Task, today: int) {
    if t.completed then false else t.dueDate < today
  }

  /**
   * A completed task is never overdue, and an open task is overdue exactly
   * when the upcoming filter leaves it out.
   */
  lemma OverdueComplementsUpcoming(t: Task, today: int)
    ensures t.completed ==> !IsOverdue(t, today)
    ensures !t.completed ==> (IsOverdue(t, today) <==> !Holds(Upcoming(today), t))
  {
  }

  /** After toggling, the lookup finds the same task with its flag flipped. */
  lemma {:induction false} FindAfterToggle(ts: seq<Task>, id: string, t: Task)
    requires FindById(ts, id) == Some(t)
    ensures FindById(ToggleById(ts, id), id) == Some(t.(completed := !t.completed))
  {
    if ts[0].id != id {
      FindAfterToggle(ts[1..], id, t);
      assert ToggleById(ts, id)[1..] == ToggleById(ts[1..], id);
    }
  }

  /** After deleting, the lookup finds nothing. */
  lemma FindAfterRemove(ts: seq<Task>, id: string)
    ensures FindById(RemoveById(ts, id), id) == None
  {
    RemoveByIdSpec(ts, id);
  }

  /** The state of one mounted detail page; `taskId` is the route parameter. */
  class TaskDetailsView {
    const taskId: string
    var task: Option<Task>
    var loading: bool

    constructor (taskId: string)
      ensures this.taskId == taskId && task == None && loading
    {
      this.taskId := taskId;
      task := None;
      loading := true;
    }

    /** The load effect: find the task; if there is none, report it (the page then returns to the dashboard). */
    method Load(store: LocalStorage) returns (toast: Option<Toast>)
      modifies this`task, this`loading
      ensures task == FindById(store.SavedTasks(), taskId) && !loading
      ensures toast == if task.None? then Some(Toast("Error", "Task not found", true)) else None
    {
      task := FindById(store.SavedTasks(), taskId);
      toast := if task.None? then Some(Toast("Error", "Task not found", true)) else None;
      loading := false;
    }

    /**
     * `handleToggleComplete`: flips the task in the freshly read stored
     * collection and in the page. Only reachable while a task is shown.
     */
    method ToggleComplete(store: LocalStorage) returns (toast: Toast)
      requires task.Some?
      modifies store`tasks, this`task
      ensures store.tasks == Some(ToggleById(old(store.SavedTasks()), taskId))
      ensures task == Some(old(task).value.(completed := !old(task).value.completed))
      ensures toast == Toast(if old(task).value.completed then "Task marked as incomplete" else "Task completed",
                             old(task).value.title, false)
    {
      var saved := store.SavedTasks();
      store.tasks := Some(ToggleById(saved, taskId));
      var shown := task.value;
      task := Some(shown.(completed := !shown.completed));
      toast := Toast(if shown.completed then "Task marked as incomplete" else "Task completed", shown.title, false);
    }

    /** `handleDeleteTask`: removes the task from the freshly read stored collection. */
    method DeleteTask(store: LocalStorage) returns (toast: Toast)
      modifies store`tasks
      ensures store.tasks == Some(RemoveById(old(store.SavedTasks()), taskId))
      ensures toast == Toast("Task deleted", "Your task has been permanently deleted.", false)
    {
      var saved := store.SavedTasks();
      store.tasks := Some(RemoveById(saved, taskId));
      toast := Toast("Task deleted", "Your task has been permanently deleted.", false);
    }
  }
}
