/**
 * The create/edit form: the form state, its field edits, validation, and
 * the submit that appends a new task or merges the form into an existing one.
 */
module TaskForm {
  import opened Common
  import opened Text
  import opened Tasks
  import opened Storage

  /** The form state; `dueDate` is `None` while the date input is empty. */
  datatype FormData = FormData(title: string, description: string, dueDate: Option<int>, priority: Priority, category: string)

  /** The form of a new task: empty text, no date, priority Medium, category Work. */
  const InitialForm: FormData := FormData("", "", None, Medium, "Work")

  /** The five editable fields of a form that passed validation. */
  datatype Fields = Fields(title: string, description: string, dueDate: int, priority: Priority, category: string)

  /** One change event: the input (or select) named by the constructor receives a value. */
  datatype Edit =
    | SetTitle(title: string)
    | SetDescription(description: string)
    | SetDueDate(dueDate: Option<int>)
    | SetPriority(priority: Priority)
    | SetCategory(category: string)

  /** The `name` attribute of the input an edit comes from. */
  function FieldName(e: Edit): string {
    match e
    case SetTitle(_) => "title"
    case SetDescription(_) => "description"
    case SetDueDate(_) => "dueDate"
    case SetPriority(_) => "priority"
    case SetCategory(_) => "category"
  }

  /** `prev => ({ ...prev, [name]: value })`: the named field takes the value, the others keep theirs. */
  function ApplyEdit(f: FormData, e: Edit): (r: FormData)
    ensures r.title == (if FieldName(e) == "title" then e.title else f.title)
    ensures r.description == (if FieldName(e) == "description" then e.description else f.description)
    ensures r.dueDate == (if FieldName(e) == "dueDate" then e.dueDate else f.dueDate)
    ensures r.priority == (if FieldName(e) == "priority" then e.priority else f.priority)
    ensures r.category == (if FieldName(e) == "category" then e.category else f.category)
  {
    match e
    case SetTitle(v) => f.(title := v)
    case SetDescription(v) => f.(description := v)
    case SetDueDate(v) => f.(dueDate := v)
    case SetPriority(v) => f.(priority := v)
    case SetCategory(v) => f.(category := v)
  }

  /** Edits of different fields commute. */
  lemma EditsOfDifferentFieldsCommute(f: FormData, e1: Edit, e2: Edit)
    requires FieldName(e1) != FieldName(e2)
    ensures ApplyEdit(ApplyEdit(f, e1), e2) == ApplyEdit(ApplyEdit(f, e2), e1)
  {
  }

  /** A later edit of the same field overrides an earlier one. */
  lemma LaterEditOfSameFieldWins(f: FormData, e1: Edit, e2: Edit)
    requires FieldName(e1) == FieldName(e2)
    ensures ApplyEdit(ApplyEdit(f, e1), e2) == ApplyEdit(f, e2)
  {
  }

  /**
   * The checks of `handleSubmit`, in order: a blank title is refused first,
   * then a missing due date; a form that passes keeps the title untrimmed.
   */
  function Validate(f: FormData): (r: Result<Fields>)
    ensures IsBlank(f.title) ==> r == Failure("Title is required")
    ensures !IsBlank(f.title) && f.dueDate.None? ==> r == Failure("Due date is required")
    ensures !IsBlank(f.title) && f.dueDate.Some? ==>
              r == Success(Fields(f.title, f.description, f.dueDate.value, f.priority, f.category))
  {
    TrimEmptyIffBlank(f.title);
    if Trim(f.title) == [] then Failure("Title is required")
    else if f.dueDate.None? then Failure("Due date is required")
    else Success(Fields(f.title, f.description, f.dueDate.value, f.priority, f.category))
  }

  /** The task `create` builds: fresh id, the fields verbatim, not completed, created `now`. */
  function NewTask(id: string, fields: Fields, now: int): Task {
    Task(id, fields.title, fields.description, fields.dueDate, fields.priority, fields.category, false, now, None)
  }

  function FieldsOf(t: Task): Fields {
    Fields(t.title, t.description, t.dueDate, t.priority, t.category)
  }

  /** `{ ...task, ...formData, updatedAt: now }`. */
  function MergeFields(t: Task, fields: Fields, now: int): (r: Task)
    ensures FieldsOf(r) == fields && r.updatedAt == Some(now)
    ensures r.id == t.id && r.completed == t.completed && r.createdAt == t.createdAt
  {
    t.(title := fields.title, description := fields.description, dueDate := fields.dueDate,
       priority := fields.priority, category := fields.category, updatedAt := Some(now))
  }

  /** `ts.map(task => task.id === id ? { ...task, ...formData, updatedAt } : task)`. */
  function MergeUpdate(ts: seq<Task>, id: string, fields: Fields, now: int): (r: seq<Task>)
    ensures |r| == |ts|
    ensures forall i :: 0 <= i < |ts| && ts[i].id == id ==> r[i] == MergeFields(ts[i], fields, now)
    ensures forall i :: 0 <= i < |ts| && ts[i].id != id ==> r[i] == ts[i]
  {
    if ts == [] then []
    else [if ts[0].id == id then MergeFields(ts[0], fields, now) else ts[0]] + MergeUpdate(ts[1..], id, fields, now)
  }

  /** Updating an id that no task has leaves every task unchanged. */
  lemma UpdateAbsentIsIdentity(ts: seq<Task>, id: string, fields: Fields, now: int)
    requires !HasId(ts, id)
    ensures MergeUpdate(ts, id, fields, now) == ts
  {
  }

  /** An update never changes an id, so uniqueness of ids is kept. */
  lemma UpdateKeepsUniqueIds(ts: seq<Task>, id: string, fields: Fields, now: int)
    requires UniqueIds(ts)
    ensures UniqueIds(MergeUpdate(ts, id, fields, now))
  {
  }

  /** Creating with an id no task has keeps ids unique. */
  lemma CreateKeepsUniqueIds(ts: seq<Task>, id: string, fields: Fields, now: int)
    requires UniqueIds(ts) && !HasId(ts, id)
    ensures UniqueIds(ts + [NewTask(id, fields, now)])
  {
  }

  /** The form an edit loads from a task: its five editable fields. */
  function FormOf(t: Task): FormData {
    FormData(t.title, t.description, Some(t.dueDate), t.priority, t.category)
  }

  /** Loading a task into the form and saving it unchanged only stamps `updatedAt`. */
  lemma EditRoundTrip(t: Task, now: int)
    requires !IsBlank(t.title)
    ensures Validate(FormOf(t)) == Success(FieldsOf(t))
    ensures MergeFields(t, FieldsOf(t), now) == t.(updatedAt := Some(now))
  {
  }

  /** What the edit-mode load did: nothing (create mode), filled the form, or reported a missing task. */
  datatype LoadOutcome = NotEditing | Loaded | NotFound(toast: Toast)

  /** The state of one mounted form; `taskId` is the route parameter, `""` on the create route. */
  class TaskFormView {
    const taskId: string
    var formData: FormData

    constructor (taskId: string)
      ensures this.taskId == taskId && formData == InitialForm
    {
      this.taskId := taskId;
      formData := InitialForm;
    }

    /**
     * The edit-mode effect: copy the stored task's five fields into the
     * form; if it is missing, report it and keep the defaults.
     */
    method LoadForEdit(store: LocalStorage) returns (outcome: LoadOutcome)
      modifies this`formData
      ensures taskId == "" ==> outcome == NotEditing && formData == old(formData)
      ensures taskId != "" && FindById(store.SavedTasks(), taskId).Some? ==>
                outcome == Loaded && formData == FormOf(FindById(store.SavedTasks(), taskId).value)
      ensures taskId != "" && FindById(store.SavedTasks(), taskId).None? ==>
                outcome == NotFound(Toast("Error", "Task not found", true)) && formData == old(formData)
    {
      if taskId == "" {
        return NotEditing;
      }
      var found := FindById(store.SavedTasks(), taskId);
      if found.Some? {
        formData := FormOf(found.value);
        outcome := Loaded;
      } else {
        outcome := NotFound(Toast("Error", "Task not found", true));
      }
    }

    /** `handleChange` and `handleSelectChange`. */
    method HandleChange(e: Edit)
      modifies this`formData
      ensures formData == ApplyEdit(old(formData), e)
    {
      formData := ApplyEdit(formData, e);
    }

    /**
     * `handleSubmit`: validate; then overwrite the stored collection with the
     * merged (edit) or extended (create) collection. `newId` and `now` stand
     * for `Date.now()` and the current timestamp.
     */
    method Submit(store: LocalStorage, newId: string, now: int) returns (r: Result<Toast>)
      modifies store`tasks
      ensures Validate(formData).Failure? ==>
                r == Failure(Validate(formData).message) && store.tasks == old(store.tasks)
      ensures Validate(formData).Success? && taskId != "" ==>
                store.tasks == Some(MergeUpdate(old(store.SavedTasks()), taskId, Validate(formData).value, now))
                && r == Success(Toast("Task updated", "Your task has been updated successfully.", false))
      ensures Validate(formData).Success? && taskId == "" ==>
                store.tasks == Some(old(store.SavedTasks()) + [NewTask(newId, Validate(formData).value, now)])
                && r == Success(Toast("Task created", "Your new task has been created successfully.", false))
    {
      var checked := Validate(formData);
      if checked.Failure? {
        return Failure(checked.message);
      }
      var saved := store.SavedTasks();
      if taskId != "" {
        store.tasks := Some(MergeUpdate(saved, taskId, checked.value, now));
        r := Success(Toast("Task updated", "Your task has been updated successfully.", false));
      } else {
        store.tasks := Some(saved + [NewTask(newId, checked.value, now)]);
        r := Success(Toast("Task created", "Your new task has been created successfully.", false));
      }
    }
  }
}
