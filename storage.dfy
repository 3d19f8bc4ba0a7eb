/**
 * The browser's key-value store as used by the dashboard: each key holds
 * a whole collection that readers load in full and writers overwrite in
 * full. `None` is a key that was never written.
 */
module Storage {
  import opened Common
  import opened Tasks
  import opened Categories

  class LocalStorage {
    /** The value under `syncwise_tasks`. */
    var tasks: Option<seq<Task>>
    /** The value under `syncwise_categories`. */
    var categories: Option<seq<Category>>

    constructor ()
      ensures tasks == None && categories == None
    {
      tasks := None;
      categories := None;
    }

    /** `JSON.parse(localStorage.getItem('syncwise_tasks') || '[]')`. */
    function SavedTasks(): seq<Task>
      reads this
    {
      if tasks.Some? then tasks.value else []
    }

    /** `JSON.parse(localStorage.getItem('syncwise_categories') || '[]')`. */
    function SavedCategories(): seq<Category>
      reads this
    {
      if categories.Some? then categories.value else []
    }
  }
}
