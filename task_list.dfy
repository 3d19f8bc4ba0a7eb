/**
 * The task list page: first-use seeding of the task collection, the view
 * rules (category filter, status filter, sort), the completion toggle,
 * deletion and the page title.
 */
module TaskList {
  import opened Common
  import opened Text
  import opened Seqs
  import opened Tasks
  import opened TaskSort
  import opened Storage

  /** The five tasks written on first use; `now` stands for the creation timestamp. */
  function DefaultTasks(now: int): (r: seq<Task>)
    ensures |r| == 5 && UniqueIds(r)
    ensures forall i :: 0 <= i < 5 ==> r[i].id == [('1' as int + i) as char]
    ensures forall i :: 0 <= i < 5 ==> r[i].createdAt == now && r[i].updatedAt == None
  {
    [ Task("1", "Complete project proposal", "Draft the full proposal document with timeline and budget",
           19537 /* 2023-06-29 */, High, "Work", false, now, None),
      Task("2", "Schedule team meeting", "Coordinate with team members for next week's planning session",
           19538 /* 2023-06-30 */, Medium, "Work", false, now, None),
      Task("3", "Grocery shopping", "Buy fresh vegetables, fruits, and essentials",
           19536 /* 2023-06-28 */, Low, "Personal", true, now, None),
      Task("4", "Review quarterly report", "Analyze Q2 performance and prepare summary",
           19543 /* 2023-07-05 */, High, "Work", false, now, None),
      Task("5", "Pay utility bills", "Electricity and internet bills due this week",
           19535 /* 2023-06-27 */, Medium, "Personal", false, now, None) ]
  }

  /** The collection `getSavedTasks` returns for a stored value `saved`. */
  function Seeded(saved: Option<seq<Task>>, now: int): seq<Task> {
    if saved.Some? then saved.value else DefaultTasks(now)
  }

  /**
   * Seeding happens only when the key is absent; a present value, even an
   * empty collection, is returned as it is, so seeding never repeats.
   */
  lemma SeedingOnlyWhenAbsent(saved: Option<seq<Task>>, now: int, later: int)
    ensures saved.None? ==> Seeded(saved, now) == DefaultTasks(now)
    ensures saved.Some? ==> Seeded(saved, now) == saved.value
    ensures Seeded(Some(Seeded(saved, now)), later) == Seeded(saved, now)
  {
  }

  /** `getSavedTasks`: reads the collection, writing the defaults first if the key is absent. */
  method GetSavedTasks(store: LocalStorage, now: int) returns (ts: seq<Task>)
    modifies store`tasks
    ensures ts == Seeded(old(store.tasks), now)
    ensures store.tasks == Some(ts)
  {
    if store.tasks.Some? {
      ts := store.tasks.value;
    } else {
      ts := DefaultTasks(now);
      store.tasks := Some(ts);
    }
  }

  /** The `filter` property of the page: none, `'completed'` or `'upcoming'`. */
  datatype StatusFilter = NoStatus | CompletedOnly | UpcomingOnly

  /**
   * The tasks the page shows, before sorting. `categoryName` is the route
   * parameter, `""` when the route has none; `today` is the current day.
   */
  function Filtered(ts: seq<Task>, filter: StatusFilter, categoryName: string, today: int): seq<Task> {
    var byCategory := if categoryName != "" then Select(ts, InCategory(categoryName)) else ts;
    match filter
    case CompletedOnly => Select(byCategory, Completed)
    case UpcomingOnly => Select(byCategory, Upcoming(today))
    case NoStatus => if categoryName == "" then Select(byCategory, Open) else byCategory
  }

  /** The view never reorders: it is a subsequence of the collection. */
  lemma FilteredIsSubsequence(ts: seq<Task>, filter: StatusFilter, categoryName: string, today: int)
    ensures IsSubsequence(Filtered(ts, filter, categoryName, today), ts)
  {
    var byCategory := if categoryName != "" then Select(ts, InCategory(categoryName)) else ts;
    SubsequenceReflexive(ts);
    var r := Filtered(ts, filter, categoryName, today);
    assert IsSubsequence(r, byCategory) by {
      if filter == NoStatus && categoryName != "" {
        SubsequenceReflexive(byCategory);
      }
    }
    SubsequenceTransitive(r, byCategory, ts);
  }

  /** A category page with no status filter shows exactly that category's tasks, completed ones included. */
  lemma CategoryViewExact(ts: seq<Task>, categoryName: string, today: int)
    requires categoryName != ""
    ensures Filtered(ts, NoStatus, categoryName, today) == Select(ts, InCategory(categoryName))
    ensures forall t :: t in Filtered(ts, NoStatus, categoryName, today) <==>
                        t in ts && EqualsIgnoreCase(t.category, categoryName)
  {
  }

  /** The completed page shows exactly the completed tasks (of the category, if one is set). */
  lemma CompletedViewExact(ts: seq<Task>, categoryName: string, today: int)
    ensures forall t :: t in Filtered(ts, CompletedOnly, categoryName, today) <==>
                        t in ts && t.completed && (categoryName != "" ==> EqualsIgnoreCase(t.category, categoryName))
  {
  }

  /** The upcoming page shows exactly the open tasks due today or later. */
  lemma UpcomingViewExact(ts: seq<Task>, categoryName: string, today: int)
    ensures forall t :: t in Filtered(ts, UpcomingOnly, categoryName, today) <==>
                        t in ts && !t.completed && t.dueDate >= today
                        && (categoryName != "" ==> EqualsIgnoreCase(t.category, categoryName))
  {
  }

  /** With neither a status filter nor a category the page hides the completed tasks. */
  lemma DefaultViewExact(ts: seq<Task>, today: int)
    ensures forall t :: t in Filtered(ts, NoStatus, "", today) <==> t in ts && !t.completed
  {
  }

  /**
   * The body of the page's effect: filter a copy of the loaded collection,
   * then sort it in place.
   */
  method ComputeView(loaded: seq<Task>, filter: StatusFilter, categoryName: string, sortOption: SortOption, today: int)
    returns (result: seq<Task>)
    ensures multiset(result) == multiset(Filtered(loaded, filter, categoryName, today))
    ensures Sorted(sortOption, result)
    ensures Stable(sortOption, Filtered(loaded, filter, categoryName, today), result)
  {
    result := loaded;
    if categoryName != "" {
      result := Select(result, InCategory(categoryName));
    }
    match filter {
      case CompletedOnly =>
        result := Select(result, Completed);
      case UpcomingOnly =>
        result := Select(result, Upcoming(today));
      case NoStatus =>
        if categoryName == "" {
          result := Select(result, Open);
        }
    }
    var a := new Task[|result|](i requires 0 <= i < |result| => result[i]);
    assert a[..] == result;
    SortInPlace(a, sortOption);
    result := a[..];
  }

  /** The view is a function of its inputs: every stable sort of the filtered tasks is the same sequence. */
  lemma ViewIsDeterministic(loaded: seq<Task>, filter: StatusFilter, categoryName: string, sortOption: SortOption,
                            today: int, r1: seq<Task>, r2: seq<Task>)
    requires Sorted(sortOption, r1) && Stable(sortOption, Filtered(loaded, filter, categoryName, today), r1)
    requires Sorted(sortOption, r2) && Stable(sortOption, Filtered(loaded, filter, categoryName, today), r2)
    ensures r1 == r2
  {
    SortResultUnique(sortOption, Filtered(loaded, filter, categoryName, today), r1, r2);
  }

  /**
   * A second run of the page's effect on the store the first run left
   * behind loads the same collection and shows the same list, so every
   * further run repeats the first one's result.
   */
  lemma RefreshSettles(saved: Option<seq<Task>>, now: int, later: int, filter: StatusFilter, categoryName: string,
                       sortOption: SortOption, today: int, r1: seq<Task>, r2: seq<Task>)
    requires Sorted(sortOption, r1) && Stable(sortOption, Filtered(Seeded(saved, now), filter, categoryName, today), r1)
    requires Sorted(sortOption, r2)
    requires Stable(sortOption, Filtered(Seeded(Some(Seeded(saved, now)), later), filter, categoryName, today), r2)
    ensures Seeded(Some(Seeded(saved, now)), later) == Seeded(saved, now)
    ensures r1 == r2
  {
    SeedingOnlyWhenAbsent(saved, now, later);
    ViewIsDeterministic(Seeded(saved, now), filter, categoryName, sortOption, today, r1, r2);
  }

  /** Sorting by priority puts High before Medium before Low, whatever the input order. */
  lemma PrioritySortExample(low: Task, high: Task, medium: Task, r: seq<Task>)
    requires low.priority == Low && high.priority == High && medium.priority == Medium
    requires Sorted(ByPriority, r) && Stable(ByPriority, [low, high, medium], r)
    ensures r == [high, medium, low]
  {
    var s, e := [low] + [high] + [medium], [high] + [medium] + [low];
    assert s == [low, high, medium] && e == [high, medium, low];
    forall x ensures Select(e, Tied(ByPriority, x)) == Select(s, Tied(ByPriority, x)) {
      PriorityClassesOfExample(low, high, medium, x);
    }
    SortResultUnique(ByPriority, s, r, e);
  }

  lemma PriorityClassesOfExample(low: Task, high: Task, medium: Task, x: Task)
    requires low.priority == Low && high.priority == High && medium.priority == Medium
    ensures Select([high] + [medium] + [low], Tied(ByPriority, x)) == Select([low] + [high] + [medium], Tied(ByPriority, x))
  {
    var p := Tied(ByPriority, x);
    SelectThree(high, medium, low, p);
    SelectThree(low, high, medium, p);
    // x ties with the one task of its own priority only, so two of the three parts are empty
    var h, m, l := Select([high], p), Select([medium], p), Select([low], p);
    if x.priority == High {
      SelectNone(medium, p);
      SelectNone(low, p);
      assert h + m + l == h == l + h + m;
    } else if x.priority == Medium {
      SelectNone(high, p);
      SelectNone(low, p);
      assert h + m + l == m == l + h + m;
    } else {
      SelectNone(high, p);
      SelectNone(medium, p);
      assert h + m + l == l == l + h + m;
    }
  }

  lemma SelectNone(t: Task, p: TaskPred)
    requires !Holds(p, t)
    ensures Select([t], p) == []
  {
    SelectSingleton(t, p);
  }

  /** Filtering three tasks filters each of them in turn. */
  lemma SelectThree(a: Task, b: Task, c: Task, p: TaskPred)
    ensures Select([a] + [b] + [c], p) == Select([a], p) + Select([b], p) + Select([c], p)
  {
    SelectAppend([a] + [b], [c], p);
    SelectAppend([a], [b], p);
  }

  /** The page title, by fixed precedence: status filter, then category, then the default. */
  function Title(filter: StatusFilter, categoryName: string): (r: string)
    ensures filter == CompletedOnly ==> r == "Completed Tasks"
    ensures filter == UpcomingOnly ==> r == "Upcoming Tasks"
    ensures filter == NoStatus && categoryName != "" ==>
              r == Capitalize(categoryName) + " Tasks" && r[0] == UpperChar(categoryName[0])
    ensures filter == NoStatus && categoryName == "" ==> r == "All Tasks"
  {
    if filter == CompletedOnly then "Completed Tasks"
    else if filter == UpcomingOnly then "Upcoming Tasks"
    else if categoryName != "" then Capitalize(categoryName) + " Tasks"
    else "All Tasks"
  }

  /** The state of one mounted task list page. */
  class TaskListView {
    const filter: StatusFilter
    const categoryName: string
    var sortOption: SortOption
    var tasks: seq<Task>
    var filteredTasks: seq<Task>

    constructor (filter: StatusFilter, categoryName: string)
      ensures this.filter == filter && this.categoryName == categoryName
      ensures sortOption == ByDueDate && tasks == [] && filteredTasks == []
    {
      this.filter := filter;
      this.categoryName := categoryName;
      sortOption := ByDueDate;
      tasks := [];
      filteredTasks := [];
    }

    /**
     * One run of the page's effect: load (seeding if needed), then
     * recompute the view from a copy. The effect also depends on `tasks`,
     * which each run replaces by a freshly parsed collection, so it runs
     * again and again; `RefreshSettles` shows that every further run gives
     * the same result.
     */
    method Refresh(store: LocalStorage, now: int, today: int)
      modifies this`tasks, this`filteredTasks, store`tasks
      ensures tasks == Seeded(old(store.tasks), now) && store.tasks == Some(tasks)
      ensures multiset(filteredTasks) == multiset(Filtered(tasks, filter, categoryName, today))
      ensures Sorted(sortOption, filteredTasks)
      ensures Stable(sortOption, Filtered(tasks, filter, categoryName, today), filteredTasks)
    {
      var loaded := GetSavedTasks(store, now);
      tasks := loaded;
      filteredTasks := ComputeView(loaded, filter, categoryName, sortOption, today);
    }

    /** A choice in the sort menu. */
    method SetSortOption(opt: SortOption)
      modifies this`sortOption
      ensures sortOption == opt
    {
      sortOption := opt;
    }

    /**
     * `handleToggleComplete`: flips the task in the page's collection and
     * overwrites the stored collection with it. The toast reads the toggled
     * task; `None` is the failed lookup of an id that is not there.
     */
    method ToggleComplete(store: LocalStorage, taskId: string) returns (toast: Option<Toast>)
      modifies this`tasks, store`tasks
      ensures tasks == ToggleById(old(tasks), taskId) && store.tasks == Some(tasks)
      ensures toast.Some? <==> HasId(old(tasks), taskId)
      ensures toast.Some? ==> (FindById(tasks, taskId).Some? &&
                var t := FindById(tasks, taskId).value;
                toast.value == Toast(if t.completed then "Task completed" else "Task marked incomplete", t.title, false))
    {
      var updated := ToggleById(tasks, taskId);
      tasks := updated;
      store.tasks := Some(updated);
      var toggled := FindById(updated, taskId);
      if toggled.Some? {
        var t := toggled.value;
        toast := Some(Toast(if t.completed then "Task completed" else "Task marked incomplete", t.title, false));
      } else {
        toast := None;
      }
    }

    /**
     * `handleDeleteTask`: removes the task from the page's collection and
     * overwrites the stored collection with the rest.
     */
    method DeleteTask(store: LocalStorage, taskId: string) returns (toast: Option<Toast>)
      modifies this`tasks, store`tasks
      ensures tasks == RemoveById(old(tasks), taskId) && store.tasks == Some(tasks)
      ensures toast.Some? <==> HasId(old(tasks), taskId)
      ensures toast.Some? ==> toast.value == Toast("Task deleted", FindById(old(tasks), taskId).value.title, false)
    {
      var toDelete := FindById(tasks, taskId);
      var updated := RemoveById(tasks, taskId);
      tasks := updated;
      store.tasks := Some(updated);
      toast := if toDelete.Some? then Some(Toast("Task deleted", toDelete.value.title, false)) else None;
    }

    function PageTitle(): string
      reads this
    {
      Title(filter, categoryName)
    }
  }
}
