/** The packing list: items filed under categories, each packed or not, with
    tabs that filter the list and a progress percentage. Every handler is a
    pure transition from the old lists to the new ones. */
module Packing {
  import opened Text
  import opened Seqs

  datatype Item = Item(id: string, name: string, category: string, packed: bool)

  datatype Category = Category(id: string, name: string, emoji: string)

  const InitialCategories: seq<Category> := [
    Category("essentials", "Essentials", "\U{1F511}"),
    Category("clothing", "Clothing", "\U{1F455}"),
    Category("toiletries", "Toiletries", "\U{1F9F4}"),
    Category("electronics", "Electronics", "\U{1F4F1}"),
    Category("documents", "Documents", "\U{1F4C4}"),
    Category("medical", "Medical", "\U{1F48A}"),
    Category("misc", "Miscellaneous", "\U{1F9E9}")]

  const InitialItems: seq<Item> := [
    Item("1", "Passport", "documents", false),
    Item("2", "Phone Charger", "electronics", false),
    Item("3", "Toothbrush", "toiletries", false),
    Item("4", "T-shirts (5)", "clothing", false),
    Item("5", "Medications", "medical", false),
    Item("6", "Wallet", "essentials", false),
    Item("7", "Camera", "electronics", false),
    Item("8", "Sunglasses", "clothing", false),
    Item("9", "Travel Insurance", "documents", false),
    Item("10", "First Aid Kit", "medical", false)]

  predicate IsPacked(it: Item) {
    it.packed
  }

  predicate IsUnpacked(it: Item) {
    !it.packed
  }

  function InCategory(c: string): Item -> bool {
    (it: Item) => it.category == c
  }

  function OutsideCategory(c: string): Item -> bool {
    (it: Item) => it.category != c
  }

  function OtherId(id: string): Item -> bool {
    (it: Item) => it.id != id
  }

  function OtherCategoryId(id: string): Category -> bool {
    (c: Category) => c.id != id
  }

  /** Some category carries identifier `id`. */
  predicate CategoryExists(cats: seq<Category>, id: string) {
    exists j :: 0 <= j < |cats| && cats[j].id == id
  }

  /** Every item is filed under a category that exists. */
  predicate WellFiled(items: seq<Item>, cats: seq<Category>) {
    forall i :: 0 <= i < |items| ==> CategoryExists(cats, items[i].category)
  }

  // ---------------------------------------------------------------------
  // Items
  // ---------------------------------------------------------------------

  /** Adding an item: nothing happens for a name that trims to nothing;
      otherwise one unpacked item with the trimmed name is appended under
      the selected category. `freshId` stands for the clock-derived id. */
  function AddItem(items: seq<Item>, name: string, category: string, freshId: string): (r: seq<Item>)
    ensures Trim(name) == [] ==> r == items
    ensures Trim(name) != [] ==>
      && |r| == |items| + 1
      && r[..|items|] == items
      && r[|items|] == Item(freshId, Trim(name), category, false)
  {
    var trimmed := Trim(name);
    if trimmed == [] then items
    else items + [Item(freshId, trimmed, category, false)]
  }

  /** Flips `packed` on the items carrying `id`; nothing else changes. */
  function TogglePacked(items: seq<Item>, id: string): (r: seq<Item>)
    ensures |r| == |items|
    ensures forall i :: 0 <= i < |r| ==>
      && r[i].id == items[i].id && r[i].name == items[i].name && r[i].category == items[i].category
      && (r[i].packed != items[i].packed <==> items[i].id == id)
  {
    seq(|items|, i requires 0 <= i < |items| =>
      if items[i].id == id then items[i].(packed := !items[i].packed) else items[i])
  }

  /** Toggling the same id twice restores the list. */
  lemma ToggleTwice(items: seq<Item>, id: string)
    ensures TogglePacked(TogglePacked(items, id), id) == items
  {
    var once := TogglePacked(items, id);
    var twice := TogglePacked(once, id);
    forall i | 0 <= i < |items| ensures twice[i] == items[i] {
    }
  }

  /** Removes every item carrying `id`, keeping the order of the rest. */
  function DeleteItem(items: seq<Item>, id: string): (r: seq<Item>)
    ensures Subsequence(r, items)
    ensures forall i :: 0 <= i < |r| ==> r[i].id != id
    ensures forall i :: 0 <= i < |items| && items[i].id != id ==> items[i] in r
    ensures forall x :: multiset(r)[x] == if x.id != id then multiset(items)[x] else 0
  {
    Filter(OtherId(id), items)
  }

  /** Deleting an item just added under a fresh id undoes the addition. */
  lemma DeleteUndoesAdd(items: seq<Item>, name: string, category: string, freshId: string)
    requires forall i :: 0 <= i < |items| ==> items[i].id != freshId
    ensures DeleteItem(AddItem(items, name, category, freshId), freshId) == items
  {
    var trimmed := Trim(name);
    FilterKeepsAll(OtherId(freshId), items);
    if trimmed != [] {
      var added := Item(freshId, trimmed, category, false);
      assert AddItem(items, name, category, freshId) == items + [added];
      FilterAppend(OtherId(freshId), items, [added]);
      assert Filter(OtherId(freshId), [added]) == [];
    }
  }

  // ---------------------------------------------------------------------
  // Categories
  // ---------------------------------------------------------------------

  /** `s` has no white space at either end. */
  predicate Trimmed(s: string) {
    s == [] || (!IsSpace(s[0]) && !IsSpace(s[|s| - 1]))
  }

  /** Adding a category: nothing happens for a name that trims to nothing;
      otherwise a category is appended whose id is the slug of the name as
      typed (surrounding white space included, so it turns into hyphens) and
      whose name is the trimmed name. */
  function AddCategory(cats: seq<Category>, name: string, emoji: string): (r: seq<Category>)
    ensures Trim(name) == [] ==> r == cats
    ensures Trim(name) != [] ==>
      && |r| == |cats| + 1
      && r[..|cats|] == cats
      && r[|cats|].id == Slug(name) && r[|cats|].name == Trim(name) && r[|cats|].emoji == emoji
      && NoSpace(r[|cats|].id) && IsLower(r[|cats|].id)
      && Trimmed(r[|cats|].name) && r[|cats|].name != []
  {
    var trimmed := Trim(name);
    if trimmed == [] then cats
    else
      var c := Category(Slug(name), trimmed, emoji);
      var r := cats + [c];
      assert r[..|cats|] == cats && r[|cats|] == c;
      r
  }

  /** Renaming the category being edited: nothing happens when none is being
      edited or the new name trims to nothing; otherwise every category with
      the edited id gets the new name, stored as typed (untrimmed), and the
      new emoji. No id changes. */
  function UpdateCategory(cats: seq<Category>, editing: Option<Category>, name: string, emoji: string): (r: seq<Category>)
    ensures editing.None? || Trim(name) == [] ==> r == cats
    ensures |r| == |cats|
    ensures forall i :: 0 <= i < |r| ==> r[i].id == cats[i].id
    ensures editing.Some? && Trim(name) != [] ==>
      forall i :: 0 <= i < |r| ==>
        if cats[i].id == editing.value.id then r[i].name == name && r[i].emoji == emoji
        else r[i] == cats[i]
  {
    if editing.None? || Trim(name) == [] then cats
    else
      var target := editing.value.id;
      Rename(cats, target, name, emoji)
  }

  /** Every category with id `target` gets the new name and emoji. */
  function Rename(cats: seq<Category>, target: string, name: string, emoji: string): (r: seq<Category>)
    ensures |r| == |cats|
    ensures forall i :: 0 <= i < |r| ==> r[i].id == cats[i].id
    ensures forall i :: 0 <= i < |r| ==>
      if cats[i].id == target then r[i].name == name && r[i].emoji == emoji else r[i] == cats[i]
  {
    seq(|cats|, i requires 0 <= i < |cats| =>
      if cats[i].id == target then cats[i].(name := name, emoji := emoji) else cats[i])
  }

  /** Deleting a category and, with it, every item filed under it. */
  function DeleteCategory(cats: seq<Category>, items: seq<Item>, id: string): (r: (seq<Category>, seq<Item>))
    ensures Subsequence(r.0, cats) && Subsequence(r.1, items)
    ensures forall i :: 0 <= i < |r.0| ==> r.0[i].id != id
    ensures forall i :: 0 <= i < |r.1| ==> r.1[i].category != id
    ensures forall i :: 0 <= i < |cats| && cats[i].id != id ==> cats[i] in r.0
    ensures forall i :: 0 <= i < |items| && items[i].category != id ==> items[i] in r.1
    ensures forall c :: multiset(r.0)[c] == if c.id != id then multiset(cats)[c] else 0
    ensures forall x :: multiset(r.1)[x] == if x.category != id then multiset(items)[x] else 0
  {
    (Filter(OtherCategoryId(id), cats), Filter(OutsideCategory(id), items))
  }

  // ---------------------------------------------------------------------
  // Tabs and progress
  // ---------------------------------------------------------------------

  /** The items a tab lists: "all", "packed" and "unpacked" are the fixed
      tabs; any other tab value is a category id. */
  function TabFilter(items: seq<Item>, tab: string): (r: seq<Item>)
    ensures Subsequence(r, items)
    ensures tab == "all" ==> r == items
    ensures tab == "packed" ==> forall i :: 0 <= i < |items| ==> (items[i] in r <==> items[i].packed)
    ensures tab == "unpacked" ==> forall i :: 0 <= i < |items| ==> (items[i] in r <==> !items[i].packed)
    ensures tab != "all" && tab != "packed" && tab != "unpacked" ==>
      forall i :: 0 <= i < |items| ==> (items[i] in r <==> items[i].category == tab)
    ensures tab == "packed" ==> forall x :: multiset(r)[x] == if x.packed then multiset(items)[x] else 0
    ensures tab == "unpacked" ==> forall x :: multiset(r)[x] == if !x.packed then multiset(items)[x] else 0
    ensures tab != "all" && tab != "packed" && tab != "unpacked" ==>
      forall x :: multiset(r)[x] == if x.category == tab then multiset(items)[x] else 0
  {
    if tab == "all" then
      SubsequenceReflexive(items);
      items
    else if tab == "packed" then Filter(IsPacked, items)
    else if tab == "unpacked" then Filter(IsUnpacked, items)
    else Filter(InCategory(tab), items)
  }

  /** A category whose id is one of the fixed tab names is shadowed: the
      tab of a category with id "packed" (the slug of a category named
      "Packed") lists the packed items, so an unpacked item of that very
      category is missing from its tab. */
  lemma ShadowedCategoryTab(it: Item)
    requires it.category == "packed" && !it.packed
    ensures TabFilter([it], it.category) == []
  {
    FilterKeepsNone(IsPacked, [it]);
  }

  /** The number of packed items: the length of the packed tab's list, which
      is the number of positions of the list holding a packed item. */
  function PackedCount(items: seq<Item>): (r: nat)
    ensures r <= |items|
    ensures r == |TabFilter(items, "packed")|
    ensures r == |set i | 0 <= i < |items| && items[i].packed|
  {
    FilterCountsPositions(IsPacked, items);
    assert Positions(IsPacked, items) == set i | 0 <= i < |items| && items[i].packed;
    |Filter(IsPacked, items)|
  }

  /** The packed and unpacked tabs together list every item once. */
  lemma PackedAndUnpackedCover(items: seq<Item>)
    ensures |TabFilter(items, "packed")| + |TabFilter(items, "unpacked")| == |items|
  {
    FilterPartition(IsPacked, IsUnpacked, items);
  }

  /** `Math.round(packed / total * 100)` on exact rationals: the nearest
      integer to the percentage, halves rounded up, and 0 for an empty list. */
  function Progress(items: seq<Item>): (r: int)
    ensures 0 <= r <= 100
    ensures items == [] ==> r == 0
    ensures items != [] ==> NearestPercent(PackedCount(items), |items|, r)
    ensures items != [] && PackedCount(items) == |items| ==> r == 100
    ensures PackedCount(items) == 0 ==> r == 0
  {
    if items == [] then 0 else RoundedPercent(PackedCount(items), |items|)
  }

  /** `r` is the percentage `100 * p / n` rounded to the nearest integer,
      halves rounded up. */
  predicate NearestPercent(p: int, n: int, r: int) {
    2 * n * r <= 200 * p + n < 2 * n * (r + 1)
  }

  function RoundedPercent(p: int, n: int): (r: int)
    requires 0 <= p <= n && 0 < n
    ensures 0 <= r <= 100
    ensures NearestPercent(p, n, r)
    ensures p == n ==> r == 100
    ensures p == 0 ==> r == 0
  {
    var r := (200 * p + n) / (2 * n);
    RoundingBounds(p, n, r);
    r
  }

  lemma RoundingBounds(p: int, n: int, r: int)
    requires 0 <= p <= n && 0 < n
    requires r == (200 * p + n) / (2 * n)
    ensures 0 <= r <= 100
    ensures NearestPercent(p, n, r)
    ensures p == n ==> r == 100
    ensures p == 0 ==> r == 0
  {
    var q, m := 200 * p + n, 2 * n;
    DivBounds(q, m);
    assert m * (r + 1) == m * r + m;
    MulMonotone(m, 101, r);
    MulMonotone(m, r + 1, 0);
    MulMonotone(m, r + 1, 100);
    MulMonotone(m, 1, r);
  }

  /** Euclidean division by a positive divisor brackets the dividend. */
  lemma DivBounds(q: int, m: int)
    requires m > 0
    ensures m * (q / m) <= q < m * (q / m) + m
  {
  }

  /** Multiplying by a positive number keeps the order. */
  lemma MulMonotone(m: int, a: int, b: int)
    requires m > 0
    ensures a <= b ==> m * a <= m * b
  {
    assert m * b == m * a + m * (b - a);
  }

  // ---------------------------------------------------------------------
  // What the list shows
  // ---------------------------------------------------------------------

  /** The items the list renders for a tab: grouped category by category,
      each group the tab's items filed under that category. An item whose
      category does not exist belongs to no group. */
  function Listed(items: seq<Item>, cats: seq<Category>, tab: string): (r: seq<Item>)
    ensures forall i :: 0 <= i < |r| ==> CategoryExists(cats, r[i].category) && r[i] in TabFilter(items, tab)
    decreases |cats|
  {
    if cats == [] then []
    else
      var t := TabFilter(items, tab);
      var group := Filter(InCategory(cats[0].id), t);
      var rest := Listed(items, cats[1..], tab);
      JoinGroups(cats, t, group, rest);
      group + rest
  }

  /** One category's group followed by the groups of the later categories
      holds only items of the tab filed under an existing category. */
  lemma JoinGroups(cats: seq<Category>, t: seq<Item>, group: seq<Item>, rest: seq<Item>)
    requires cats != []
    requires forall i :: 0 <= i < |group| ==> InCategory(cats[0].id)(group[i]) && group[i] in t
    requires forall i :: 0 <= i < |rest| ==> CategoryExists(cats[1..], rest[i].category) && rest[i] in t
    ensures forall i :: 0 <= i < |group + rest| ==>
      CategoryExists(cats, (group + rest)[i].category) && (group + rest)[i] in t
  {
    forall i | 0 <= i < |group + rest|
      ensures CategoryExists(cats, (group + rest)[i].category) && (group + rest)[i] in t
    {
      if i < |group| {
        assert (group + rest)[i] == group[i];
        assert cats[0].id == group[i].category;
      } else {
        var x := rest[i - |group|];
        assert (group + rest)[i] == x;
        var j :| 0 <= j < |cats[1..]| && cats[1..][j].id == x.category;
        assert cats[j + 1].id == x.category;
      }
    }
  }

  /** When every item is filed under an existing category, every item the
      tab selects is shown. */
  lemma {:induction false} ListedComplete(items: seq<Item>, cats: seq<Category>, tab: string, x: Item)
    requires x in TabFilter(items, tab) && CategoryExists(cats, x.category)
    ensures x in Listed(items, cats, tab)
    decreases |cats|
  {
    var t := TabFilter(items, tab);
    var k :| 0 <= k < |t| && t[k] == x;
    if cats[0].id == x.category {
      assert x in Filter(InCategory(cats[0].id), t);
    } else {
      var j :| 0 <= j < |cats| && cats[j].id == x.category;
      assert cats[1..][j - 1].id == x.category;
      ListedComplete(items, cats[1..], tab, x);
    }
  }

  /** With every item filed under an existing category, the "all" tab shows
      every item. */
  lemma WellFiledAllShown(items: seq<Item>, cats: seq<Category>)
    requires WellFiled(items, cats)
    ensures forall i :: 0 <= i < |items| ==> items[i] in Listed(items, cats, "all")
  {
    forall i | 0 <= i < |items| ensures items[i] in Listed(items, cats, "all") {
      ListedComplete(items, cats, "all", items[i]);
    }
  }

  /** The add form keeps its selected category when that category is
      deleted, and adding then files the item under a category that no
      longer exists: the item counts towards progress but no tab shows it,
      so it can be neither packed nor deleted. */
  lemma AddToMissingCategoryIsHidden(items: seq<Item>, cats: seq<Category>, name: string,
                                     category: string, freshId: string, tab: string)
    requires Trim(name) != [] && !CategoryExists(cats, category)
    ensures var r := AddItem(items, name, category, freshId);
      && |r| == |items| + 1
      && r[|items|] !in Listed(r, cats, tab)
  {
  }

  /** Adding an item only under an existing category. */
  function AddFiledItem(items: seq<Item>, cats: seq<Category>, name: string, category: string,
                        freshId: string): (r: seq<Item>)
    ensures !CategoryExists(cats, category) ==> r == items
    ensures CategoryExists(cats, category) ==> r == AddItem(items, name, category, freshId)
    ensures |items| <= |r| <= |items| + 1 && r[..|items|] == items
    ensures forall i :: |items| <= i < |r| ==> CategoryExists(cats, r[i].category)
  {
    if CategoryExists(cats, category) then AddItem(items, name, category, freshId) else items
  }

  /** Adding under an existing category keeps every item filed, so the new
      item is shown. */
  lemma AddFiledKeepsFiled(items: seq<Item>, cats: seq<Category>, name: string, category: string,
                           freshId: string)
    requires WellFiled(items, cats)
    ensures WellFiled(AddFiledItem(items, cats, name, category, freshId), cats)
  {
  }

  // ---------------------------------------------------------------------
  // Every other handler keeps items filed
  // ---------------------------------------------------------------------

  /** The initial list starts with nothing packed. */
  lemma InitialProgress()
    ensures PackedCount(InitialItems) == 0 && Progress(InitialItems) == 0
  {
    forall i | 0 <= i < |InitialItems| ensures !InitialItems[i].packed {}
    NothingPackedNoProgress(InitialItems);
  }

  lemma NothingPackedNoProgress(items: seq<Item>)
    requires forall i :: 0 <= i < |items| ==> !items[i].packed
    ensures PackedCount(items) == 0 && Progress(items) == 0
  {
    FilterKeepsNone(IsPacked, items);
  }

  /** The initial items are all filed under initial categories. */
  lemma InitialWellFiled()
    ensures WellFiled(InitialItems, InitialCategories)
  {
    var cs := InitialCategories;
    var its := InitialItems;
    var home := [4, 3, 2, 1, 5, 0, 3, 1, 4, 5];
    forall i | 0 <= i < |its| ensures CategoryExists(cs, its[i].category) {
      assert cs[home[i]].id == its[i].category;
    }
  }

  lemma ToggleKeepsFiled(items: seq<Item>, cats: seq<Category>, id: string)
    requires WellFiled(items, cats)
    ensures WellFiled(TogglePacked(items, id), cats)
  {
  }

  lemma DeleteItemKeepsFiled(items: seq<Item>, cats: seq<Category>, id: string)
    requires WellFiled(items, cats)
    ensures WellFiled(DeleteItem(items, id), cats)
  {
  }

  lemma AddCategoryKeepsFiled(items: seq<Item>, cats: seq<Category>, name: string, emoji: string)
    requires WellFiled(items, cats)
    ensures WellFiled(items, AddCategory(cats, name, emoji))
  {
  }

  lemma UpdateCategoryKeepsFiled(items: seq<Item>, cats: seq<Category>, editing: Option<Category>,
                                 name: string, emoji: string)
    requires WellFiled(items, cats)
    ensures WellFiled(items, UpdateCategory(cats, editing, name, emoji))
  {
  }

  /** The cascade keeps every remaining item filed, and it removes exactly
      the items the deleted category's own tab listed. */
  lemma DeleteCategoryKeepsFiled(items: seq<Item>, cats: seq<Category>, id: string)
    requires WellFiled(items, cats)
    ensures WellFiled(DeleteCategory(cats, items, id).1, DeleteCategory(cats, items, id).0)
    ensures id != "all" && id != "packed" && id != "unpacked" ==>
      |DeleteCategory(cats, items, id).1| + |TabFilter(items, id)| == |items|
  {
    FilterPartition(OutsideCategory(id), InCategory(id), items);
  }
}
