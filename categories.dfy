/** The category record persisted under the `syncwise_categories` key. */
module Categories {
  import opened Text
  import opened Seqs

  datatype Category = Category(name: string, color: string)

  /** The colours a new category draws from. */
  const Palette: seq<string> := ["bg-indigo-600", "bg-emerald-600", "bg-amber-600", "bg-rose-600", "bg-blue-600"]

  /** The two built-in categories seeded on first use; neither can be deleted. */
  const DefaultCategories: seq<Category> := [Category("work", "bg-indigo-600"), Category("personal", "bg-emerald-600")]

  predicate IsBuiltIn(name: string) {
    name == "work" || name == "personal"
  }

  predicate HasName(cs: seq<Category>, name: string) {
    exists i :: 0 <= i < |cs| && cs[i].name == name
  }

  /** `cs.some(c => c.name.toLowerCase() === name.toLowerCase())`. */
  predicate HasNameIgnoringCase(cs: seq<Category>, name: string) {
    exists i :: 0 <= i < |cs| && EqualsIgnoreCase(cs[i].name, name)
  }

  /** No two categories have names that differ only in case. */
  predicate DistinctIgnoringCase(cs: seq<Category>) {
    forall i, j :: 0 <= i < j < |cs| ==> !EqualsIgnoreCase(cs[i].name, cs[j].name)
  }

  /** `cs.filter(c => c.name !== name)`. */
  function WithoutName(cs: seq<Category>, name: string): (r: seq<Category>)
    ensures forall c :: c in r <==> c in cs && c.name != name
    ensures IsSubsequence(r, cs)
  {
    if cs == [] then []
    else if cs[0].name != name then [cs[0]] + WithoutName(cs[1..], name)
    else WithoutName(cs[1..], name)
  }

  /** The deletion keeps every copy of a category with another name and none with the name. */
  lemma {:induction false} WithoutNameKeepsCopies(cs: seq<Category>, name: string)
    ensures forall c :: multiset(WithoutName(cs, name))[c] == if c.name != name then multiset(cs)[c] else 0
  {
    if cs != [] {
      assert cs == [cs[0]] + cs[1..];
      WithoutNameKeepsCopies(cs[1..], name);
    }
  }
}
