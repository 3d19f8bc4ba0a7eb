/**
 * The public demo board: an in-memory task list with a category filter,
 * a text search and a completion toggle. Nothing is persisted.
 */
module DemoPage {
  import opened Text
  import opened Seqs
  import opened Tasks

  datatype DemoTask = DemoTask(
    id: int,
    title: string,
    description: string,
    priority: Priority,
    category: string,
    dueDate: int,
    completed: bool)

  /** The six tasks the demo starts with. */
  const InitialTasks: seq<DemoTask> := [
    DemoTask(1, "Prepare project proposal", "Complete draft for client review", High, "Work", 19528 /* 2023-06-20 */, false),
    DemoTask(2, "Team meeting", "Discuss project timeline and milestones", Medium, "Work", 19529 /* 2023-06-21 */, false),
    DemoTask(3, "Review design mockups", "Provide feedback on new UI designs", Medium, "Work", 19527 /* 2023-06-19 */, true),
    DemoTask(4, "Grocery shopping", "Buy ingredients for dinner party", Low, "Personal", 19530 /* 2023-06-22 */, false),
    DemoTask(5, "Schedule dentist appointment", "Annual checkup", Low, "Personal", 19533 /* 2023-06-25 */, false),
    DemoTask(6, "Pay utility bills", "Electricity and water due this week", High, "Personal", 19526 /* 2023-06-18 */, true)
  ]

  /** The search matches the lower-cased title or description against the lower-cased, untrimmed query. */
  predicate MatchesQuery(t: DemoTask, query: string) {
    Contains(Lower(t.title), Lower(query)) || Contains(Lower(t.description), Lower(query))
  }

  /** The predicate of `filteredTasks`: the category filter first, then the search unless the query is blank. */
  predicate Passes(t: DemoTask, activeFilter: string, query: string) {
    if activeFilter != "All" && t.category != activeFilter then false
    else if Trim(query) != [] then MatchesQuery(t, query)
    else true
  }

  /** `tasks.filter(...)`: the tasks that pass, in their original order. */
  function FilterTasks(ts: seq<DemoTask>, activeFilter: string, query: string): (r: seq<DemoTask>)
    ensures forall t :: t in r <==> t in ts && Passes(t, activeFilter, query)
    ensures IsSubsequence(r, ts)
  {
    if ts == [] then []
    else if Passes(ts[0], activeFilter, query) then [ts[0]] + FilterTasks(ts[1..], activeFilter, query)
    else FilterTasks(ts[1..], activeFilter, query)
  }

  /** The demo filter keeps every copy of a task that passes and no copy of one that fails. */
  lemma {:induction false} FilterKeepsCopies(ts: seq<DemoTask>, activeFilter: string, query: string)
    ensures forall t :: multiset(FilterTasks(ts, activeFilter, query))[t] ==
                        if Passes(t, activeFilter, query) then multiset(ts)[t] else 0
  {
    if ts != [] {
      assert ts == [ts[0]] + ts[1..];
      FilterKeepsCopies(ts[1..], activeFilter, query);
    }
  }

  /** Outside "All", only tasks of exactly that category (case-sensitive) are shown. */
  lemma CategoryFilterExact(ts: seq<DemoTask>, activeFilter: string, query: string)
    requires activeFilter != "All"
    ensures forall t :: t in FilterTasks(ts, activeFilter, query) ==> t.category == activeFilter
  {
  }

  /** A white-space-only query filters nothing: the result is that of the empty query. */
  lemma {:induction false} BlankQueryFiltersNothing(ts: seq<DemoTask>, activeFilter: string, query: string)
    requires IsBlank(query)
    ensures FilterTasks(ts, activeFilter, query) == FilterTasks(ts, activeFilter, "")
  {
    TrimEmptyIffBlank(query);
    if ts != [] {
      BlankQueryFiltersNothing(ts[1..], activeFilter, query);
    }
  }

  /** With a non-blank query a task of the selected category passes exactly when title or description contains the query. */
  lemma SearchExact(ts: seq<DemoTask>, activeFilter: string, query: string)
    requires !IsBlank(query)
    ensures forall t :: t in FilterTasks(ts, activeFilter, query) <==>
                        t in ts && (activeFilter == "All" || t.category == activeFilter) &&
                        ((exists i :: OccursAt(Lower(t.title), Lower(query), i)) ||
                         (exists i :: OccursAt(Lower(t.description), Lower(query), i)))
  {
    TrimEmptyIffBlank(query);
    forall t: DemoTask ensures MatchesQuery(t, query) <==>
                        ((exists i :: OccursAt(Lower(t.title), Lower(query), i)) ||
                         (exists i :: OccursAt(Lower(t.description), Lower(query), i))) {
      ContainsIffOccurs(Lower(t.title), Lower(query));
      ContainsIffOccurs(Lower(t.description), Lower(query));
    }
  }

  /** With filter "All" and an empty query every task is shown, in order. */
  lemma {:induction false} ShowAllShowsEverything(ts: seq<DemoTask>)
    ensures FilterTasks(ts, "All", "") == ts
  {
    if ts != [] {
      ShowAllShowsEverything(ts[1..]);
    }
  }

  /** `tasks.map(task => task.id === id ? { ...task, completed: !task.completed } : task)`. */
  function ToggleDemo(ts: seq<DemoTask>, id: int): (r: seq<DemoTask>)
    ensures |r| == |ts|
    ensures forall i :: 0 <= i < |ts| ==> r[i] == ts[i].(completed := r[i].completed)
    ensures forall i :: 0 <= i < |ts| ==> r[i].completed == (if ts[i].id == id then !ts[i].completed else ts[i].completed)
  {
    if ts == [] then []
    else [if ts[0].id == id then ts[0].(completed := !ts[0].completed) else ts[0]] + ToggleDemo(ts[1..], id)
  }

  /** Toggling the same id twice restores the list. */
  lemma DemoToggleTwice(ts: seq<DemoTask>, id: int)
    ensures ToggleDemo(ToggleDemo(ts, id), id) == ts
  {
    var r := ToggleDemo(ToggleDemo(ts, id), id);
    assert forall i :: 0 <= i < |ts| ==> r[i] == ts[i];
  }

  /** The state of the demo page. */
  class DemoBoard {
    var tasks: seq<DemoTask>
    var activeFilter: string
    var searchQuery: string

    constructor ()
      ensures tasks == InitialTasks && activeFilter == "All" && searchQuery == ""
    {
      tasks := InitialTasks;
      activeFilter := "All";
      searchQuery := "";
    }

    /** `filteredTasks`, recomputed on every render: the board's tasks that pass its filter and query, in order. */
    function FilteredTasks(): (r: seq<DemoTask>)
      reads this
      ensures forall t :: t in r <==> t in tasks && Passes(t, activeFilter, searchQuery)
      ensures IsSubsequence(r, tasks)
    {
      FilterTasks(tasks, activeFilter, searchQuery)
    }

    /** One of the filter buttons ("All", "Work", "Personal"). */
    method SetActiveFilter(filter: string)
      modifies this`activeFilter
      ensures activeFilter == filter
    {
      activeFilter := filter;
    }

    /** Typing in the search box. */
    method SetSearchQuery(query: string)
      modifies this`searchQuery
      ensures searchQuery == query
    {
      searchQuery := query;
    }

    /** `toggleTaskCompletion`. */
    method ToggleTaskCompletion(id: int)
      modifies this`tasks
      ensures tasks == ToggleDemo(old(tasks), id)
    {
      tasks := ToggleDemo(tasks, id);
    }
  }
}
