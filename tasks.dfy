/**
 * The task record persisted under the `syncwise_tasks` key, and the
 * whole-collection operations every dashboard view applies to it.
 * A due date is a day number (days since 1970-01-01); timestamps are
 * opaque integers supplied by the caller.
 */
module Tasks {
  import opened Common
  import opened Text
  import opened Seqs

  datatype Priority = High | Medium | Low

  datatype Task = Task(
    id: string,
    title: string,
    description: string,
    dueDate: int,
    priority: Priority,
    category: string,
    completed: bool,
    createdAt: int,
    updatedAt: Option<int>)

  /** The rank the priority sort uses: `{ High: 1, Medium: 2, Low: 3 }`. */
  function Rank(p: Priority): int {
    match p
    case High => 1
    case Medium => 2
    case Low => 3
  }

  /** The three sort keys of the list view; `Unsorted` is any other value, whose comparator is constantly 0. */
  datatype SortOption = ByDueDate | ByPriority | ByTitle | Unsorted

  /** `a` may come before `b`: the comparator of the list view returns a value <= 0. */
  predicate Le(opt: SortOption, a: Task, b: Task) {
    match opt
    case ByDueDate => a.dueDate <= b.dueDate
    case ByPriority => Rank(a.priority) <= Rank(b.priority)
    case ByTitle => LexLe(a.title, b.title)
    case Unsorted => true
  }

  lemma LeTotal(opt: SortOption, a: Task, b: Task)
    ensures Le(opt, a, b) || Le(opt, b, a)
  {
    if opt == ByTitle {
      LexLeTotal(a.title, b.title);
    }
  }

  lemma LeTransitive(opt: SortOption, a: Task, b: Task, c: Task)
    requires Le(opt, a, b) && Le(opt, b, c)
    ensures Le(opt, a, c)
  {
    if opt == ByTitle {
      LexLeTransitive(a.title, b.title, c.title);
    }
  }

  /** The filters applied to the collection, named so that each can be passed as a value. */
  datatype TaskPred =
    | Completed                          // `task.completed`
    | Open                               // `!task.completed`
    | Upcoming(today: int)               // `dueDate >= today && !task.completed`
    | InCategory(name: string)           // category equal ignoring case
    | IdIsNot(id: string)                // `task.id !== id`
    | Tied(opt: SortOption, pivot: Task) // compares equal to `pivot` under `opt`

  predicate Holds(p: TaskPred, t: Task) {
    match p
    case Completed => t.completed
    case Open => !t.completed
    case Upcoming(today) => t.dueDate >= today && !t.completed
    case InCategory(name) => EqualsIgnoreCase(t.category, name)
    case IdIsNot(id) => t.id != id
    case Tied(opt, pivot) => Le(opt, t, pivot) && Le(opt, pivot, t)
  }

  /** `ts.filter(p)`: the tasks satisfying `p`, in their original order. */
  function Select(ts: seq<Task>, p: TaskPred): (r: seq<Task>)
    ensures forall t :: t in r <==> t in ts && Holds(p, t)
    ensures forall i :: 0 <= i < |r| ==> Holds(p, r[i])
    ensures IsSubsequence(r, ts)
  {
    if ts == [] then []
    else if Holds(p, ts[0]) then [ts[0]] + Select(ts[1..], p)
    else Select(ts[1..], p)
  }

  /** `filter` keeps every copy of a task that passes and no copy of one that fails. */
  lemma {:induction false} SelectKeepsCopies(ts: seq<Task>, p: TaskPred)
    ensures forall t :: multiset(Select(ts, p))[t] == if Holds(p, t) then multiset(ts)[t] else 0
  {
    if ts != [] {
      assert ts == [ts[0]] + ts[1..];
      SelectKeepsCopies(ts[1..], p);
    }
  }

  /** Filtering distributes over concatenation. */
  lemma {:induction false} SelectAppend(a: seq<Task>, b: seq<Task>, p: TaskPred)
    ensures Select(a + b, p) == Select(a, p) + Select(b, p)
    decreases |a|, 1
  {
    if a == [] {
      assert a + b == b;
    } else {
      SelectAppendCons(a, b, p);
    }
  }

  /** The non-empty case of `SelectAppend`, in a lemma of its own to keep each proof small. */
  lemma {:induction false} SelectAppendCons(a: seq<Task>, b: seq<Task>, p: TaskPred)
    requires a != []
    ensures Select(a + b, p) == Select(a, p) + Select(b, p)
    decreases |a|, 0
  {
    var c := a + b;
    assert c[0] == a[0];
    assert c[1..] == a[1..] + b;
    SelectAppend(a[1..], b, p);
  }

  lemma SelectSingleton(t: Task, p: TaskPred)
    ensures Select([t], p) == if Holds(p, t) then [t] else []
  {
    assert [t][1..] == [];
  }

  /** Selecting by a filter every task already satisfies changes nothing. */
  lemma {:induction false} SelectAll(ts: seq<Task>, p: TaskPred)
    requires forall i :: 0 <= i < |ts| ==> Holds(p, ts[i])
    ensures Select(ts, p) == ts
  {
    if ts != [] {
      SelectAll(ts[1..], p);
    }
  }

  predicate HasId(ts: seq<Task>, id: string) {
    exists i :: 0 <= i < |ts| && ts[i].id == id
  }

  /** No two tasks of the collection share an id. */
  predicate UniqueIds(ts: seq<Task>) {
    forall i, j :: 0 <= i < j < |ts| ==> ts[i].id != ts[j].id
  }

  /** `ts.find(t => t.id === id)`: the first task with that id. */
  function FindById(ts: seq<Task>, id: string): (r: Option<Task>)
    ensures r.None? <==> !HasId(ts, id)
    ensures r.Some? ==> exists k :: 0 <= k < |ts| && ts[k] == r.value && r.value.id == id
                                    && forall j :: 0 <= j < k ==> ts[j].id != id
  {
    if ts == [] then None
    else if ts[0].id == id then Some(ts[0])
    else
      var r := FindById(ts[1..], id);
      assert r.Some? ==> exists k :: 0 <= k < |ts[1..]| && ts[1..][k] == r.value && r.value.id == id
                                     && forall j :: 0 <= j < k ==> ts[1..][j].id != id;
      if r.Some? then
        var k :| 0 <= k < |ts[1..]| && ts[1..][k] == r.value && r.value.id == id
                 && forall j :: 0 <= j < k ==> ts[1..][j].id != id;
        assert ts[k + 1] == r.value && forall j :: 0 <= j < k + 1 ==> ts[j].id != id;
        r
      else
        r
  }

  /** With unique ids, whatever task carries the id is the one found. */
  lemma FindUnique(ts: seq<Task>, id: string, k: nat)
    requires UniqueIds(ts) && k < |ts| && ts[k].id == id
    ensures FindById(ts, id) == Some(ts[k])
  {
  }

  /** `ts.map(t => t.id === id ? { ...t, completed: !t.completed } : t)`. */
  function ToggleById(ts: seq<Task>, id: string): (r: seq<Task>)
    ensures |r| == |ts|
    ensures forall i :: 0 <= i < |ts| ==> r[i] == ts[i].(completed := r[i].completed)
    ensures forall i :: 0 <= i < |ts| ==> r[i].completed == (if ts[i].id == id then !ts[i].completed else ts[i].completed)
  {
    if ts == [] then []
    else
      var head := if ts[0].id == id then ts[0].(completed := !ts[0].completed) else ts[0];
      [head] + ToggleById(ts[1..], id)
  }

  /** Toggling the same id twice restores the collection. */
  lemma ToggleTwice(ts: seq<Task>, id: string)
    ensures ToggleById(ToggleById(ts, id), id) == ts
  {
    var r := ToggleById(ToggleById(ts, id), id);
    assert forall i :: 0 <= i < |ts| ==> r[i] == ts[i];
  }

  /** Toggling an id that no task has leaves the collection unchanged. */
  lemma ToggleAbsent(ts: seq<Task>, id: string)
    requires !HasId(ts, id)
    ensures ToggleById(ts, id) == ts
  {
    var r := ToggleById(ts, id);
    assert forall i :: 0 <= i < |ts| ==> r[i] == ts[i];
  }

  /** `ts.filter(t => t.id !== id)`. */
  function RemoveById(ts: seq<Task>, id: string): seq<Task> {
    Select(ts, IdIsNot(id))
  }

  /**
   * Deleting keeps exactly the tasks with another id, every copy of each,
   * in their original order, and afterwards no task has the id.
   */
  lemma RemoveByIdSpec(ts: seq<Task>, id: string)
    ensures forall t :: t in RemoveById(ts, id) <==> t in ts && t.id != id
    ensures forall t :: multiset(RemoveById(ts, id))[t] == if t.id != id then multiset(ts)[t] else 0
    ensures IsSubsequence(RemoveById(ts, id), ts)
    ensures !HasId(RemoveById(ts, id), id)
  {
    SelectKeepsCopies(ts, IdIsNot(id));
  }

  /** Deleting an absent id leaves the collection unchanged. */
  lemma RemoveAbsent(ts: seq<Task>, id: string)
    requires !HasId(ts, id)
    ensures RemoveById(ts, id) == ts
  {
    SelectAll(ts, IdIsNot(id));
  }

  /** Deleting cannot break the uniqueness of ids. */
  lemma RemoveKeepsUniqueIds(ts: seq<Task>, id: string)
    requires UniqueIds(ts)
    ensures UniqueIds(RemoveById(ts, id))
  {
    SelectKeepsUniqueIds(ts, IdIsNot(id));
  }

  lemma {:induction false} SelectKeepsUniqueIds(ts: seq<Task>, p: TaskPred)
    requires UniqueIds(ts)
    ensures UniqueIds(Select(ts, p))
  {
    if ts != [] {
      SelectKeepsUniqueIds(ts[1..], p);
      var rest := Select(ts[1..], p);
      if Holds(p, ts[0]) {
        forall t | t in rest ensures t.id != ts[0].id {
          assert t in ts[1..];
        }
      }
    }
  }

  /** Toggling never changes an id, so uniqueness of ids is kept. */
  lemma ToggleKeepsUniqueIds(ts: seq<Task>, id: string)
    requires UniqueIds(ts)
    ensures UniqueIds(ToggleById(ts, id))
  {
  }
}
