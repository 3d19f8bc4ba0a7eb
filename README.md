# SyncWise task core, modelled in Dafny

SyncWise is a single-user task manager that runs in the browser. Tasks and
categories are kept as two JSON collections in the browser's key-value store,
under `syncwise_tasks` and `syncwise_categories`. Every page reads a whole
collection, changes it and writes the whole collection back. This project
models the parts of the program that decide what is stored and what is shown:

- the task list page: seeding on first use, the category and status filters,
  the three sort keys, the completion toggle, deletion and the page title;
- the create/edit form: field edits, validation, the update merge and the
  creation of a new task;
- the task detail page: lookup, toggle, delete and the overdue badge;
- the dashboard's category registry: seeding, adding (blank and
  case-insensitive duplicates refused, names lower-cased, a palette colour),
  and deleting (the two built-ins protected);
- the public demo board: its six in-memory tasks, the category filter, the
  text search and the toggle;
- the testimonial carousel's wrap-around index.

Files, one module each:

| file | module | contents |
|---|---|---|
| common.dfy | Common | `Option`, `Result`, the `Toast` notification value |
| text.dfy | Text | `trim`, ASCII `toLowerCase`/`toUpperCase`, `includes`, a lexicographic order |
| seqs.dfy | Seqs | order-preserving subsequences |
| tasks.dfy | Tasks | the `Task` record, sort comparators, filters, find/toggle/remove by id |
| task_sort.dfy | TaskSort | the in-place stable sort on an array and the uniqueness of stable sorts |
| categories.dfy | Categories | the `Category` record, the palette and the built-ins |
| storage.dfy | Storage | the key-value store as a class with one field per key |
| task_list.dfy | TaskList | `TaskList.tsx` |
| task_form.dfy | TaskForm | `TaskForm.tsx` |
| task_details.dfy | TaskDetails | `TaskDetails.tsx` |
| dashboard.dfy | Dashboard | the category logic of `Dashboard.tsx` |
| demo_page.dfy | DemoPage | `DemoPage.tsx` |
| testimonials.dfy | Testimonials | the carousel of `TestimonialSection.tsx` |

Modelling conventions:

- A date is a day number counted from 1970-01-01; for example 2023-06-29 is 19537.
- The current day (`today`) and the current timestamp (`now`) are parameters.
  So is the id `Date.now().toString()` gives a new task (`newId`).
  So is the palette index drawn by `Math.random()` (`roll`).
- A route parameter that is missing is the empty string. This matches the
  program's truthiness tests.
- A store key is `Option<seq<..>>`, with `None` for a missing key.
  `SavedTasks()` and `SavedCategories()` model `JSON.parse(getItem(key) || '[]')`.
- Every React component with state is a class. Its `useState` variables are
  fields. Each handler is a method whose `modifies` clause names the state it
  sets and the store fields it writes. A notification is returned as a
  `Toast` value.
- List filters are values of the `TaskPred` datatype, read by `Holds` and
  applied by `Select`, which is `Array.prototype.filter`.

Three behaviours of the code worth knowing:

- Tasks are seeded only when the `syncwise_tasks` key is absent. A stored
  empty list is returned as it is (`TaskList.SeedingOnlyWhenAbsent`).
  Categories, however, are seeded when the list is empty.
- Updating or deleting an id that is not stored does not fail. It writes back
  the unchanged collection (`TaskForm.UpdateAbsentIsIdentity`,
  `Tasks.RemoveAbsent`). The form then still reports "Task updated".
- The duplicate check for a new category compares the untrimmed input, so
  " work" can be added beside "work" (`Dashboard.PaddedBuiltInAccepted`).

## Model

| member | source | states |
|---|---|---|
| Text.TrimEmptyIffBlank | src/components/dashboard/TaskForm.tsx:73 | `trim()` gives the empty string exactly when the input is all white space, which is what the blank-title, blank-name and blank-query tests rely on |
| Text.TrimStart | src/pages/Dashboard.tsx:76 | the leading part `trim` drops is all white space, and what remains is a suffix that does not start with a space |
| Text.TrimEnd | src/pages/Dashboard.tsx:76 | the trailing part `trim` drops is all white space, and what remains is a prefix that does not end with a space |
| Text.Trim | src/pages/Dashboard.tsx:76 | `trim()`: `TrimEnd` after `TrimStart`; its emptiness is characterised by `Text.TrimEmptyIffBlank` |
| Text.Lower | src/components/dashboard/TaskList.tsx:71 | `toLowerCase` keeps the length and lower-cases each character |
| Text.LowerIdempotent | src/pages/Dashboard.tsx:80-101 | a stored lower-cased name lower-cases to itself, so it compares equal to its own input ignoring case |
| Text.EqualsIgnoreCase | src/components/dashboard/TaskList.tsx:71 | `a.toLowerCase() === b.toLowerCase()`, the test also used for duplicate names at Dashboard.tsx:80; an equivalence, since it compares the `Lower` images |
| Text.Capitalize | src/components/dashboard/TaskList.tsx:141 | only the first character is upper-cased; the rest is kept |
| Text.ContainsIffOccurs | src/pages/DemoPage.tsx:46-47 | `includes` succeeds exactly when the query occurs at some position |
| Text.Contains | src/pages/DemoPage.tsx:46-47 | `includes`: a match at the front or further on; characterised by `Text.ContainsIffOccurs` |
| Text.LexLeTotal | src/components/dashboard/TaskList.tsx:99 | the title order compares any two titles |
| Text.LexLeTransitive | src/components/dashboard/TaskList.tsx:99 | the title order is transitive |
| Text.LexLeAntisymmetric | src/components/dashboard/TaskList.tsx:99 | two titles ordered both ways are equal |
| Tasks.Rank | src/components/dashboard/TaskList.tsx:96 | the priority ranks High 1, Medium 2, Low 3 |
| Tasks.Le | src/components/dashboard/TaskList.tsx:92-102 | `a` may precede `b`: due day, rank or title not greater, and always for an unknown key; a total preorder by `Tasks.LeTotal` and `Tasks.LeTransitive` |
| Tasks.LeTotal | src/components/dashboard/TaskList.tsx:92-102 | each of the comparators orders any two tasks |
| Tasks.LeTransitive | src/components/dashboard/TaskList.tsx:92-102 | each of the comparators is transitive, so it is a valid sort order |
| Tasks.Select | src/components/dashboard/TaskList.tsx:70-88 | `filter` keeps exactly the tasks satisfying the predicate, in their original order |
| Tasks.SelectKeepsCopies | src/components/dashboard/TaskList.tsx:70-88 | `filter` keeps every copy of a passing task and no copy of a failing one |
| Tasks.SelectAll | src/components/dashboard/TaskList.tsx:66-89 | a filter every task passes returns the collection unchanged |
| Tasks.Holds | src/components/dashboard/TaskList.tsx:70-88 | the filter predicates: a category equal ignoring case, `completed`, open and due today or later, open, and at TaskList.tsx:126 an id other than the deleted one |
| Tasks.FindById | src/components/dashboard/TaskList.tsx:125 | `find` returns nothing exactly when no task has the id, otherwise a stored task with that id |
| Tasks.FindUnique | src/components/dashboard/TaskDetails.tsx:50 | with unique ids, `find` returns the one task carrying the id |
| Tasks.ToggleById | src/components/dashboard/TaskList.tsx:109-111 | same length; only `completed` changes, and it flips exactly on the tasks with the id |
| Tasks.ToggleTwice | src/components/dashboard/TaskList.tsx:109-111 | two toggles of the same id restore the collection |
| Tasks.ToggleAbsent | src/components/dashboard/TaskDetails.tsx:68-73 | toggling an id no task has writes back the unchanged collection |
| Tasks.ToggleKeepsUniqueIds | src/components/dashboard/TaskList.tsx:109-111 | toggling keeps ids unique |
| Tasks.RemoveById | src/components/dashboard/TaskList.tsx:126 | `filter(t => t.id !== id)`, the same filter as TaskDetails.tsx:85; its meaning is `Tasks.RemoveByIdSpec` |
| Tasks.RemoveByIdSpec | src/components/dashboard/TaskList.tsx:126 | deletion keeps exactly the tasks with another id, every copy of each, in order, and none with the id is left |
| Tasks.RemoveAbsent | src/components/dashboard/TaskDetails.tsx:84-87 | deleting an absent id writes back the unchanged collection |
| Tasks.RemoveKeepsUniqueIds | src/components/dashboard/TaskList.tsx:126 | deleting keeps ids unique |
| Tasks.SelectKeepsUniqueIds | src/components/dashboard/TaskList.tsx:66-89 | any filtered view of a collection with unique ids has unique ids |
| TaskSort.SortInPlace | src/components/dashboard/TaskList.tsx:92-102 | the in-place sort leaves the array ordered by the comparator, a permutation of the input, and stable: tasks that compare equal keep their relative order |
| TaskSort.StableSortUnique | src/components/dashboard/TaskList.tsx:92-102 | two sorted sequences whose equal-comparing tasks appear in the same order are identical |
| TaskSort.SortResultUnique | src/components/dashboard/TaskList.tsx:92-102 | every sorted, stable result for one input is the same sequence |
| TaskSort.UnsortedKeepsOrder | src/components/dashboard/TaskList.tsx:101 | under the comparator that always returns 0 the order is unchanged |
| Categories.WithoutName | src/pages/Dashboard.tsx:133-135 | deletion keeps exactly the categories with another name, in order |
| Categories.WithoutNameKeepsCopies | src/pages/Dashboard.tsx:133-135 | deletion keeps every copy of a category with another name and none with the name |
| Categories.Palette | src/pages/Dashboard.tsx:91-97 | the five colours a new category draws from, in the source's order |
| Categories.DefaultCategories | src/pages/Dashboard.tsx:52-55 | the seed: "work" in indigo and "personal" in emerald; `Dashboard.DefaultsAreSound` proves its names distinct and unpadded |
| Categories.IsBuiltIn | src/pages/Dashboard.tsx:124 | exactly the names "work" and "personal" are protected from deletion, compared case-sensitively |
| Categories.HasNameIgnoringCase | src/pages/Dashboard.tsx:79-81 | `categories.some(...)`: some stored name equals the input ignoring case, the input untrimmed |
| Storage.LocalStorage.SavedTasks | src/components/dashboard/TaskForm.tsx:35 | the parsed value under `syncwise_tasks`, read as the empty list when the key is absent |
| Storage.LocalStorage.SavedCategories | src/pages/Dashboard.tsx:48-50 | the same read for `syncwise_categories` |
| TaskList.DefaultTasks | src/components/dashboard/TaskList.tsx:31-37 | five seed tasks with ids "1" to "5", unique, all created at the current time and never updated |
| TaskList.Seeded | src/components/dashboard/TaskList.tsx:24-41 | the collection `getSavedTasks` returns: the stored value, or the defaults when the key is absent; see `TaskList.SeedingOnlyWhenAbsent` |
| TaskList.SeedingOnlyWhenAbsent | src/components/dashboard/TaskList.tsx:24-41 | the defaults appear only when the key is absent; a stored list, even an empty one, is returned as it is, and a second load never seeds again |
| TaskList.GetSavedTasks | src/components/dashboard/TaskList.tsx:24-41 | returns the seeded collection, and afterwards the key holds exactly what was returned |
| TaskList.Filtered | src/components/dashboard/TaskList.tsx:66-89 | the category filter, then the status filter, with the open-only default when neither is set; each view is characterised by the four `…ViewExact` lemmas |
| TaskList.FilteredIsSubsequence | src/components/dashboard/TaskList.tsx:66-89 | the filtered view is a subsequence of the loaded collection |
| TaskList.CategoryViewExact | src/components/dashboard/TaskList.tsx:69-73 | a category page shows exactly the tasks whose category equals the route name ignoring case, completed ones included |
| TaskList.CompletedViewExact | src/components/dashboard/TaskList.tsx:76-77 | the completed page shows exactly the completed tasks of the category, if a category is set |
| TaskList.UpcomingViewExact | src/components/dashboard/TaskList.tsx:78-85 | the upcoming page shows exactly the open tasks due today or later |
| TaskList.DefaultViewExact | src/components/dashboard/TaskList.tsx:86-89 | with no status filter and no category, exactly the open tasks are shown |
| TaskList.ComputeView | src/components/dashboard/TaskList.tsx:66-104 | the view is a permutation of the filtered tasks, sorted by the chosen key and stable |
| TaskList.ViewIsDeterministic | src/components/dashboard/TaskList.tsx:92-104 | the view is a function of the collection, the filters and the sort key |
| TaskList.PrioritySortExample | src/components/dashboard/TaskList.tsx:95-97 | sorting by priority puts High before Medium before Low |
| TaskList.Title | src/components/dashboard/TaskList.tsx:138-143 | the status filter wins over the category; a category title starts with the capitalised name; otherwise "All Tasks" |
| TaskList.TaskListView.constructor | src/components/dashboard/TaskList.tsx:44-47 | sorting starts by due date and both lists start empty |
| TaskList.TaskListView.Refresh | src/components/dashboard/TaskList.tsx:62-105 | one run of the effect: loads (seeding if needed) and sets the shown list to the sorted, stable permutation of the filtered collection |
| TaskList.RefreshSettles | src/components/dashboard/TaskList.tsx:62-105 | a further run of the effect on the store the first run left loads the same collection and shows the same list |
| TaskList.TaskListView.PageTitle | src/components/dashboard/TaskList.tsx:138-143 | the page's title is `TaskList.Title` of its filter and category |
| TaskList.TaskListView.SetSortOption | src/components/dashboard/TaskList.tsx:159-165 | the sort key becomes the chosen one |
| TaskList.TaskListView.ToggleComplete | src/components/dashboard/TaskList.tsx:108-121 | page and store both hold the toggled collection; the toast names the task and its new state, and exists exactly when the id was present |
| TaskList.TaskListView.DeleteTask | src/components/dashboard/TaskList.tsx:124-135 | page and store both hold the collection without the id; the toast names the deleted task, and exists exactly when the id was present |
| TaskForm.ApplyEdit | src/components/dashboard/TaskForm.tsx:58-65 | the named field takes the new value and every other field is kept |
| TaskForm.EditsOfDifferentFieldsCommute | src/components/dashboard/TaskForm.tsx:58-65 | edits to different fields commute |
| TaskForm.LaterEditOfSameFieldWins | src/components/dashboard/TaskForm.tsx:58-65 | a later edit of a field overrides an earlier one |
| TaskForm.Validate | src/components/dashboard/TaskForm.tsx:73-79 | a blank title is refused first, then a missing due date; otherwise the five fields pass through, the title untrimmed |
| TaskForm.NewTask | src/components/dashboard/TaskForm.tsx:104-109 | the created task: the new id, the validated fields, not completed, created now, never updated |
| TaskForm.MergeFields | src/components/dashboard/TaskForm.tsx:86-94 | the five fields come from the form and `updatedAt` is set; id, completion and creation time are kept |
| TaskForm.MergeUpdate | src/components/dashboard/TaskForm.tsx:86-94 | tasks with the id are merged, all other tasks are unchanged, and the length is kept |
| TaskForm.UpdateAbsentIsIdentity | src/components/dashboard/TaskForm.tsx:86-94 | updating an absent id changes nothing |
| TaskForm.UpdateKeepsUniqueIds | src/components/dashboard/TaskForm.tsx:86-94 | updating keeps ids unique |
| TaskForm.CreateKeepsUniqueIds | src/components/dashboard/TaskForm.tsx:104-111 | appending a task with a fresh id keeps ids unique |
| TaskForm.FormOf | src/components/dashboard/TaskForm.tsx:39-45 | the form an edit loads: the task's five editable fields |
| TaskForm.InitialForm | src/components/dashboard/TaskForm.tsx:22-28 | the empty form: no title, description or date, priority Medium, category Work |
| TaskForm.EditRoundTrip | src/components/dashboard/TaskForm.tsx:39-45 | a task loaded into the form and saved unchanged passes validation and is unchanged except for `updatedAt` |
| TaskForm.TaskFormView.constructor | src/components/dashboard/TaskForm.tsx:22-28 | the form starts empty, with priority Medium and category Work |
| TaskForm.TaskFormView.LoadForEdit | src/components/dashboard/TaskForm.tsx:33-56 | on the create route nothing happens; on the edit route the stored task's five fields fill the form, or a missing task gives the "Task not found" error |
| TaskForm.TaskFormView.HandleChange | src/components/dashboard/TaskForm.tsx:58-65 | the form becomes the edited form |
| TaskForm.TaskFormView.Submit | src/components/dashboard/TaskForm.tsx:67-131 | a refused form reports its message and writes nothing; otherwise the store holds the merged (edit) or extended (create) collection and the matching toast is returned |
| TaskDetails.IsOverdue | src/components/dashboard/TaskDetails.tsx:125-131 | an open task due before today; related to the upcoming filter by `TaskDetails.OverdueComplementsUpcoming` |
| TaskDetails.OverdueComplementsUpcoming | src/components/dashboard/TaskDetails.tsx:125-131 | a completed task is never overdue; an open task is overdue exactly when the upcoming filter leaves it out |
| TaskDetails.FindAfterToggle | src/components/dashboard/TaskDetails.tsx:67-74 | after the stored toggle, the lookup finds the same task with its flag flipped, matching the page's own copy |
| TaskDetails.FindAfterRemove | src/components/dashboard/TaskDetails.tsx:83-87 | after deletion the lookup finds nothing |
| TaskDetails.TaskDetailsView.constructor | src/components/dashboard/TaskDetails.tsx:30-33 | the page starts loading with no task |
| TaskDetails.TaskDetailsView.Load | src/components/dashboard/TaskDetails.tsx:48-64 | the page holds the stored task with the route id, loading ends, and a missing task gives the "Task not found" error |
| TaskDetails.TaskDetailsView.ToggleComplete | src/components/dashboard/TaskDetails.tsx:67-80 | the store and the page copy are toggled; the toast is chosen by the state before the toggle |
| TaskDetails.TaskDetailsView.DeleteTask | src/components/dashboard/TaskDetails.tsx:83-95 | the store holds the collection without the id and the fixed deletion toast is returned |
| Dashboard.AfterAdd | src/pages/Dashboard.tsx:75-110 | the list after an add: unchanged for a blank or duplicate name, otherwise one lower-cased entry appended; characterised by the `Add…` lemmas |
| Dashboard.AfterDelete | src/pages/Dashboard.tsx:122-135 | the list after a delete: unchanged for a built-in, otherwise without the name; characterised by the `Delete…` lemmas |
| Dashboard.AddBlankIgnored | src/pages/Dashboard.tsx:76 | a white-space-only name changes nothing |
| Dashboard.AddDuplicateRejected | src/pages/Dashboard.tsx:78-89 | a name equal to an existing one ignoring case changes nothing |
| Dashboard.AddAppendsOne | src/pages/Dashboard.tsx:91-110 | any other name appends exactly one category, lower-cased, with a palette colour, after the unchanged list |
| Dashboard.AddKeepsDistinct | src/pages/Dashboard.tsx:75-120 | adding keeps the names distinct ignoring case |
| Dashboard.PaddedNameIsNotDuplicate | src/pages/Dashboard.tsx:78-82 | when no stored name starts with a space, a space-prefixed name passes the duplicate check and is appended |
| Dashboard.PaddedBuiltInAccepted | src/pages/Dashboard.tsx:78-82 | " work" is added beside the built-in "work" |
| Dashboard.DeleteProtected | src/pages/Dashboard.tsx:124-131 | "work" and "personal" cannot be deleted |
| Dashboard.DeleteRemovesName | src/pages/Dashboard.tsx:133-135 | deleting another name removes exactly the entries with that exact name, keeping every copy of the rest, in order |
| Dashboard.DeleteKeepsDistinct | src/pages/Dashboard.tsx:122-151 | deleting keeps the names distinct ignoring case |
| Dashboard.BuiltInsSurvive | src/pages/Dashboard.tsx:122-131 | both built-ins survive any sequence of adds and deletes |
| Dashboard.DefaultsAreSound | src/pages/Dashboard.tsx:52-55 | the seed list holds both built-ins, with distinct names |
| Dashboard.DashboardView.constructor | src/pages/Dashboard.tsx:39-41 | no categories and an empty input at first |
| Dashboard.DashboardView.LoadCategories | src/pages/Dashboard.tsx:47-64 | an empty or absent stored list is replaced by the built-ins in page and store; otherwise the stored list is shown and nothing is written |
| Dashboard.DashboardView.SetNewCategoryName | src/pages/Dashboard.tsx:253 | the input holds the typed text |
| Dashboard.DashboardView.AddCategory | src/pages/Dashboard.tsx:75-120 | blank input does nothing; a duplicate gives the error toast and writes nothing; otherwise page and store get the appended list, the input is cleared and the toast names the input |
| Dashboard.DashboardView.DeleteCategory | src/pages/Dashboard.tsx:122-151 | built-ins give the "Cannot delete" toast and write nothing; otherwise page and store lose the name, a redirect happens exactly when the deleted category's page was shown, and tasks are never touched |
| DemoPage.MatchesQuery | src/pages/DemoPage.tsx:45-47 | the lower-cased title or description includes the lower-cased query |
| DemoPage.Passes | src/pages/DemoPage.tsx:37-51 | the category test first, then the search unless the trimmed query is empty |
| DemoPage.FilterTasks | src/pages/DemoPage.tsx:37-51 | exactly the tasks that pass the category filter and the search are shown, in order |
| DemoPage.InitialTasks | src/pages/DemoPage.tsx:10-17 | the six demo records with ids 1 to 6, their titles, descriptions, priorities, categories, day numbers for the ISO dates and completion flags |
| DemoPage.DemoBoard.FilteredTasks | src/pages/DemoPage.tsx:37-51 | `filteredTasks` of the current board: exactly the board's tasks that pass its filter tab and query, in their order |
| DemoPage.FilterKeepsCopies | src/pages/DemoPage.tsx:37-51 | every copy of a passing task is shown and no copy of a failing one |
| DemoPage.CategoryFilterExact | src/pages/DemoPage.tsx:39-41 | outside "All", only tasks whose category is exactly the filter, case-sensitively, are shown |
| DemoPage.BlankQueryFiltersNothing | src/pages/DemoPage.tsx:44 | a white-space-only query gives the same result as the empty query |
| DemoPage.SearchExact | src/pages/DemoPage.tsx:44-48 | with a non-blank query, a task of the selected category is shown exactly when its lower-cased title or description contains the lower-cased query |
| DemoPage.ShowAllShowsEverything | src/pages/DemoPage.tsx:37-51 | filter "All" with an empty query shows every task, in order |
| DemoPage.ToggleDemo | src/pages/DemoPage.tsx:53-57 | same length; only `completed` changes, and it flips exactly on the tasks with the id |
| DemoPage.DemoToggleTwice | src/pages/DemoPage.tsx:53-57 | two toggles of the same id restore the list |
| DemoPage.DemoBoard.constructor | src/pages/DemoPage.tsx:20-22 | the six demo tasks, filter "All" and an empty query |
| DemoPage.DemoBoard.SetActiveFilter | src/pages/DemoPage.tsx:108-124 | the category filter becomes the chosen one |
| DemoPage.DemoBoard.SetSearchQuery | src/pages/DemoPage.tsx:101 | the query holds the typed text |
| DemoPage.DemoBoard.ToggleTaskCompletion | src/pages/DemoPage.tsx:53-57 | the tasks become the toggled list |
| Testimonials.Next | src/components/TestimonialSection.tsx:50 | the next index stays in range and wraps from the last to the first |
| Testimonials.Prev | src/components/TestimonialSection.tsx:54 | the previous index stays in range and wraps from the first to the last |
| Testimonials.PrevUndoesNext | src/components/TestimonialSection.tsx:49-55 | back undoes forward and forward undoes back |
| Testimonials.Advance | src/components/TestimonialSection.tsx:49-51 | any number of forward presses stays in range |
| Testimonials.AdvanceWithoutWrap | src/components/TestimonialSection.tsx:49-51 | before the end of the list, `k` presses move `k` places |
| Testimonials.WrapsToFirst | src/components/TestimonialSection.tsx:49-51 | pressing past the last testimonial returns to the first |
| Testimonials.AdvanceCompose | src/components/TestimonialSection.tsx:49-51 | `a + b` presses equal `a` presses followed by `b` presses |
| Testimonials.FullCycleReturns | src/components/TestimonialSection.tsx:49-51 | as many presses as there are testimonials return to the start |
| Testimonials.Carousel.constructor | src/components/TestimonialSection.tsx:47 | four testimonials, starting at the first |
| Testimonials.Carousel.NextTestimonial | src/components/TestimonialSection.tsx:49-51 | the index moves forward with wrap-around and stays in range |
| Testimonials.Carousel.PrevTestimonial | src/components/TestimonialSection.tsx:53-55 | the index moves back with wrap-around and stays in range |

## Left out

- Rendering (JSX, styling, icons, badges, the mobile menu, the sidebar) is not modelled. Neither is authentication (the Clerk user and sign-in state).
- Navigation is left out. Each source handler navigates after a fixed outcome: success of `Submit`, a missing task in `Load`/`LoadForEdit`, and `DeleteTask` on the detail page. The one conditional redirect, after a category is deleted, is returned as `redirect`.
- JSON parse failures in the store are not modelled. The store holds typed values, and a missing key reads as an empty list.
- Concurrent writers (several tabs) are not modelled. Each method is one read-modify-write.
- Time is left out: `Date`, time zones and ISO timestamps are not modelled. Dates are day numbers, and "today" and "now" are parameters. Date strings that do not parse (NaN comparisons) are not modelled.
- `Math.random()` is not modelled. The palette index is the parameter `roll`.
- `Date.now().toString()` is not modelled. The new task's id is the parameter `newId`. `TaskForm.CreateKeepsUniqueIds` shows that ids stay unique when it is fresh.
- The form's `loading` flag is not modelled. Neither are the `showCategoryInput` and `showDeleteButtons` toggles, which only affect rendering.
- Text.Lower: case mapping covers ASCII letters only; full Unicode `toLowerCase` is not modelled.
- Text.Capitalize: upper-casing covers ASCII letters only; full Unicode `toUpperCase` is not modelled.
- Text.LexLeTotal: titles are compared by plain code-point lexicographic order. Locale-aware `localeCompare` is not modelled.
- TaskList.TaskListView.ToggleComplete: in the source, an id that is not in the list crashes when the toast reads the missing task, after the write. The model returns no toast in that case.
- TaskList.TaskListView.DeleteTask: in the source, an id that is not in the list crashes when the toast reads the missing task, after the write. The model returns no toast in that case.
- TaskList.TaskListView.Refresh: the source effect lists `tasks` among its dependencies and replaces `tasks` with a freshly parsed array on every run, so it re-runs without end. `Refresh` models one run; `TaskList.RefreshSettles` shows that each later run repeats its result. The endless re-rendering itself is not modelled.
- Form values: the priority and due date are typed values (`Priority`, `Option<int>`), not the strings the inputs hold. The select and date inputs only produce those values.
