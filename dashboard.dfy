/**
 * The dashboard shell's category registry: first-use seeding, adding a
 * category (blank and case-insensitive duplicate names refused, name
 * lower-cased, colour drawn from the palette) and deleting one (the two
 * built-ins protected, tasks untouched).
 */
module Dashboard {
  import opened Common
  import opened Text
  import opened Seqs
  import opened Categories
  import opened Storage

  /** The list after `handleAddCategory` with input `input`; `roll` is the palette index drawn at random. */
  function AfterAdd(cs: seq<Category>, input: string, roll: nat): seq<Category>
    requires roll < |Palette|
  {
    if Trim(input) == [] then cs
    else if HasNameIgnoringCase(cs, input) then cs
    else cs + [Category(Lower(input), Palette[roll])]
  }

  /** The list after `handleDeleteCategory(name)`. */
  function AfterDelete(cs: seq<Category>, name: string): seq<Category> {
    if IsBuiltIn(name) then cs else WithoutName(cs, name)
  }

  /** A blank or white-space-only name changes nothing. */
  lemma AddBlankIgnored(cs: seq<Category>, input: string, roll: nat)
    requires roll < |Palette| && IsBlank(input)
    ensures AfterAdd(cs, input, roll) == cs
  {
    TrimEmptyIffBlank(input);
  }

  /** A name equal to an existing one ignoring case is refused. */
  lemma AddDuplicateRejected(cs: seq<Category>, input: string, roll: nat)
    requires roll < |Palette| && HasNameIgnoringCase(cs, input)
    ensures AfterAdd(cs, input, roll) == cs
  {
  }

  /**
   * Any other name appends exactly one category, lower-cased, with a palette
   * colour, after the unchanged earlier entries.
   */
  lemma AddAppendsOne(cs: seq<Category>, input: string, roll: nat)
    requires roll < |Palette| && !IsBlank(input) && !HasNameIgnoringCase(cs, input)
    ensures var r := AfterAdd(cs, input, roll);
            |r| == |cs| + 1 && r[..|cs|] == cs && r[|cs|].name == Lower(input) && r[|cs|].color in Palette
  {
    TrimEmptyIffBlank(input);
  }

  /** Adding keeps the names pairwise distinct ignoring case. */
  lemma AddKeepsDistinct(cs: seq<Category>, input: string, roll: nat)
    requires roll < |Palette| && DistinctIgnoringCase(cs)
    ensures DistinctIgnoringCase(AfterAdd(cs, input, roll))
  {
    var r := AfterAdd(cs, input, roll);
    if r != cs {
      LowerIdempotent(input);
      forall i | 0 <= i < |cs| ensures !EqualsIgnoreCase(r[i].name, r[|cs|].name) {
        assert r[i] == cs[i];
      }
    }
  }

  /** The built-ins cannot be deleted. */
  lemma DeleteProtected(cs: seq<Category>, name: string)
    requires IsBuiltIn(name)
    ensures AfterDelete(cs, name) == cs
  {
  }

  /** Deleting another name removes every entry with exactly that name and keeps every copy of the rest, in order. */
  lemma DeleteRemovesName(cs: seq<Category>, name: string)
    requires !IsBuiltIn(name)
    ensures forall c :: c in AfterDelete(cs, name) <==> c in cs && c.name != name
    ensures forall c :: multiset(AfterDelete(cs, name))[c] == if c.name != name then multiset(cs)[c] else 0
    ensures IsSubsequence(AfterDelete(cs, name), cs)
  {
    WithoutNameKeepsCopies(cs, name);
  }

  /** Deleting keeps the names pairwise distinct ignoring case. */
  lemma {:induction false} DeleteKeepsDistinct(cs: seq<Category>, name: string)
    requires DistinctIgnoringCase(cs)
    ensures DistinctIgnoringCase(AfterDelete(cs, name))
  {
    if !IsBuiltIn(name) {
      WithoutNameKeepsDistinct(cs, name);
    }
  }

  lemma {:induction false} WithoutNameKeepsDistinct(cs: seq<Category>, name: string)
    requires DistinctIgnoringCase(cs)
    ensures DistinctIgnoringCase(WithoutName(cs, name))
  {
    if cs != [] {
      assert DistinctIgnoringCase(cs[1..]);
      WithoutNameKeepsDistinct(cs[1..], name);
      var rest := WithoutName(cs[1..], name);
      if cs[0].name != name {
        forall c | c in rest ensures !EqualsIgnoreCase(cs[0].name, c.name) {
          assert c in cs[1..];
        }
        var r := [cs[0]] + rest;
        forall i, j | 0 <= i < j < |r| ensures !EqualsIgnoreCase(r[i].name, r[j].name) {
          if i == 0 {
            assert r[j] in rest;
          } else {
            assert r[i] == rest[i - 1] && r[j] == rest[j - 1];
          }
        }
      }
    }
  }

  /**
   * The duplicate check compares the untrimmed input: when no stored name
   * starts with a space (the built-ins do not), a space-prefixed copy of any
   * non-blank name, say " work", is accepted as a new category.
   */
  lemma LowerPadded(name: string)
    ensures Lower(" " + name) == " " + Lower(name)
  {
    var a, b := Lower(" " + name), " " + Lower(name);
    assert |a| == |b|;
    forall i | 0 <= i < |a| ensures a[i] == b[i] {
      if i > 0 {
        assert (" " + name)[i] == name[i - 1];
      }
    }
  }

  lemma PaddedIsNotBlank(name: string)
    requires !IsBlank(name)
    ensures Trim(" " + name) != []
  {
    var padded := " " + name;
    var k :| 0 <= k < |name| && !IsSpace(name[k]);
    assert padded[k + 1] == name[k];
    TrimEmptyIffBlank(padded);
  }

  lemma PaddedNameIsNotDuplicate(cs: seq<Category>, name: string, roll: nat)
    requires roll < |Palette| && !IsBlank(name)
    requires forall i :: 0 <= i < |cs| ==> cs[i].name == [] || cs[i].name[0] != ' '
    ensures AfterAdd(cs, " " + name, roll) == cs + [Category(" " + Lower(name), Palette[roll])]
  {
    PaddedIsNotBlank(name);
    LowerPadded(name);
    assert !HasNameIgnoringCase(cs, " " + name) by {
      forall i | 0 <= i < |cs| ensures Lower(cs[i].name) != Lower(" " + name) {
        if cs[i].name != [] {
          assert Lower(cs[i].name)[0] == LowerChar(cs[i].name[0]);
        }
      }
    }
  }

  /** The seed list holds both built-ins, with distinct names that do not start with a space. */
  lemma DefaultsAreSound()
    ensures HasName(DefaultCategories, "work") && HasName(DefaultCategories, "personal")
    ensures DistinctIgnoringCase(DefaultCategories)
    ensures forall i :: 0 <= i < |DefaultCategories| ==>
              DefaultCategories[i].name == [] || DefaultCategories[i].name[0] != ' '
  {
    assert DefaultCategories[0].name == "work" && DefaultCategories[1].name == "personal";
    assert DefaultCategories[0].name[0] == 'w' && DefaultCategories[1].name[0] == 'p';
    assert Lower("work") != Lower("personal") by {
      assert Lower("work")[0] == 'w' && Lower("personal")[0] == 'p';
    }
  }

  /** The built-ins start with no space, so " work" can be added beside "work". */
  lemma PaddedBuiltInAccepted()
    ensures AfterAdd(DefaultCategories, " work", 0) == DefaultCategories + [Category(" work", Palette[0])]
  {
    DefaultsAreSound();
    WorkIsLowerCaseWord();
    PaddedNameIsNotDuplicate(DefaultCategories, "work", 0);
  }

  /** Facts about the literal "work", kept apart so that the example above stays small. */
  lemma WorkIsLowerCaseWord()
    ensures !IsBlank("work") && Lower("work") == "work" && " " + "work" == " work"
  {
    assert !IsSpace("work"[0]);
  }

  /** A user action on the category list. */
  datatype CategoryOp = Add(input: string, roll: nat) | Delete(name: string)

  predicate RollsInRange(ops: seq<CategoryOp>) {
    forall i :: 0 <= i < |ops| ==> (ops[i].Add? ==> ops[i].roll < |Palette|)
  }

  /** The list after a sequence of adds and deletes. */
  function Replay(cs: seq<Category>, ops: seq<CategoryOp>): seq<Category>
    requires RollsInRange(ops)
    decreases |ops|
  {
    if ops == [] then cs
    else
      var next := match ops[0]
                  case Add(input, roll) => AfterAdd(cs, input, roll)
                  case Delete(name) => AfterDelete(cs, name);
      Replay(next, ops[1..])
  }

  /** Both built-ins survive any sequence of adds and deletes. */
  lemma {:induction false} BuiltInsSurvive(cs: seq<Category>, ops: seq<CategoryOp>)
    requires RollsInRange(ops) && HasName(cs, "work") && HasName(cs, "personal")
    ensures HasName(Replay(cs, ops), "work") && HasName(Replay(cs, ops), "personal")
    decreases |ops|
  {
    if ops != [] {
      var next := match ops[0]
                  case Add(input, roll) => AfterAdd(cs, input, roll)
                  case Delete(name) => AfterDelete(cs, name);
      assert HasName(next, "work") && HasName(next, "personal") by {
        match ops[0]
        case Add(input, roll) =>
          var i :| 0 <= i < |cs| && cs[i].name == "work";
          var j :| 0 <= j < |cs| && cs[j].name == "personal";
          assert next[i] == cs[i] && next[j] == cs[j];
        case Delete(name) =>
          if !IsBuiltIn(name) {
            var i :| 0 <= i < |cs| && cs[i].name == "work";
            var j :| 0 <= j < |cs| && cs[j].name == "personal";
            assert cs[i] in next && cs[j] in next;
          }
      }
      assert RollsInRange(ops[1..]);
      BuiltInsSurvive(next, ops[1..]);
    }
  }

  /** The category state of the dashboard shell. */
  class DashboardView {
    var categories: seq<Category>
    var newCategoryName: string

    constructor ()
      ensures categories == [] && newCategoryName == ""
    {
      categories := [];
      newCategoryName := "";
    }

    /** The mount effect: an empty (or absent) stored list is replaced by the two built-ins. */
    method LoadCategories(store: LocalStorage)
      modifies this`categories, store`categories
      ensures |old(store.SavedCategories())| == 0 ==>
                categories == DefaultCategories && store.categories == Some(DefaultCategories)
      ensures |old(store.SavedCategories())| > 0 ==>
                categories == old(store.SavedCategories()) && store.categories == old(store.categories)
    {
      var saved := store.SavedCategories();
      if |saved| == 0 {
        store.categories := Some(DefaultCategories);
        categories := DefaultCategories;
      } else {
        categories := saved;
      }
    }

    /** Typing in the new-category input. */
    method SetNewCategoryName(name: string)
      modifies this`newCategoryName
      ensures newCategoryName == name
    {
      newCategoryName := name;
    }

    /** `handleAddCategory`; `roll` stands for `Math.floor(Math.random() * colors.length)`. */
    method AddCategory(store: LocalStorage, roll: nat) returns (toast: Option<Toast>)
      requires roll < |Palette|
      modifies this`categories, this`newCategoryName, store`categories
      ensures categories == AfterAdd(old(categories), old(newCategoryName), roll)
      ensures IsBlank(old(newCategoryName)) ==>
                toast == None && newCategoryName == old(newCategoryName) && store.categories == old(store.categories)
      ensures !IsBlank(old(newCategoryName)) && HasNameIgnoringCase(old(categories), old(newCategoryName)) ==>
                toast == Some(Toast("Error", "Category already exists", true))
                && newCategoryName == old(newCategoryName) && store.categories == old(store.categories)
      ensures !IsBlank(old(newCategoryName)) && !HasNameIgnoringCase(old(categories), old(newCategoryName)) ==>
                toast == Some(Toast("Category added", old(newCategoryName) + " category has been created.", false))
                && newCategoryName == "" && store.categories == Some(categories)
    {
      TrimEmptyIffBlank(newCategoryName);
      if Trim(newCategoryName) == [] {
        return None;
      }
      if HasNameIgnoringCase(categories, newCategoryName) {
        return Some(Toast("Error", "Category already exists", true));
      }
      var added := Category(Lower(newCategoryName), Palette[roll]);
      var updated := categories + [added];
      store.categories := Some(updated);
      categories := updated;
      toast := Some(Toast("Category added", newCategoryName + " category has been created.", false));
      newCategoryName := "";
    }

    /**
     * `handleDeleteCategory`: refuses the built-ins; otherwise removes the
     * name, and `redirect` says whether the page at `pathname` was the
     * deleted category's and must return to the dashboard. Tasks are not touched.
     */
    method DeleteCategory(store: LocalStorage, name: string, pathname: string) returns (toast: Toast, redirect: bool)
      modifies this`categories, store`categories
      ensures categories == AfterDelete(old(categories), name)
      ensures IsBuiltIn(name) ==>
                toast == Toast("Cannot delete", "Default categories cannot be deleted", true)
                && store.categories == old(store.categories) && !redirect
      ensures !IsBuiltIn(name) ==>
                toast == Toast("Category deleted", name + " category has been removed.", false)
                && store.categories == Some(categories)
                && (redirect <==> pathname == "/dashboard/category/" + name)
      ensures store.tasks == old(store.tasks)
    {
      if IsBuiltIn(name) {
        return Toast("Cannot delete", "Default categories cannot be deleted", true), false;
      }
      var updated := WithoutName(categories, name);
      store.categories := Some(updated);
      categories := updated;
      toast := Toast("Category deleted", name + " category has been removed.", false);
      redirect := pathname == "/dashboard/category/" + name;
    }
  }
}
