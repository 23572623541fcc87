/**
  The shopping-list screen (app/other/shopping.tsx): creating and deleting
  lists, adding, ticking and deleting items of the selected list, the
  checked count shown per list and the sorted item view.

  The screen's selection (`selectedListId`) is a parameter; the list it shows
  is looked up in the store on every use. Fresh ids and timestamps are
  parameters. Category comparison (`localeCompare`) is an abstract relation.
 */
module Shopping {
  import opened Common
  import opened Types
  import Keyed
  import S = Store
  import P = Progression
  import Sorting

  const Categories: seq<string> := ["Fruits", "Vegetables", "Dairy", "Meat", "Drinks", "Bakery", "Other"]

  /** The category the add-item form starts with and returns to. */
  const DefaultCategory: string := "Other"

  datatype Alert = ListNameMissing | ItemIncomplete

  function ItemId(i: ShoppingItem): string { i.id }

  /** `shoppingLists.find(l => l.id === selectedListId)`. */
  function SelectedList(s: S.Store, sel: Option<string>): (r: Option<ShoppingList>)
    ensures r.Some? ==> sel.Some? && r.value in s.shoppingLists && r.value.id == sel.value
    ensures r.None? <==> sel.None? || forall l :: l in s.shoppingLists ==> l.id != sel.value
  {
    match sel
    case None => None
    case Some(id) =>
      var key := S.ShoppingListId;
      assert forall l :: key(l) == l.id;
      Find(s.shoppingLists, Keyed.KeyIs(key, id))
  }

  // ---------------------------------------------------------------------------
  // Lists

  /** `handleCreateList`: a nonblank name (kept untrimmed) makes a new empty list at the end. */
  function CreateList(s: S.Store, name: string, id: string, now: string): (r: Result<S.Store, Alert>)
    ensures r.Failure? <==> Blank(name)
    ensures r.Failure? ==> r.error == ListNameMissing
    ensures r.Success? ==>
      && |r.value.shoppingLists| == |s.shoppingLists| + 1
      && r.value.shoppingLists[..|s.shoppingLists|] == s.shoppingLists
      && var l := r.value.shoppingLists[|s.shoppingLists|];
         l.id == id && l.name == name && l.createdAt == now && l.items == []
    ensures r.Success? ==> r.value == s.(shoppingLists := r.value.shoppingLists)
  {
    if Blank(name) then Failure(ListNameMissing)
    else Success(S.AddShoppingList(s, ShoppingList(id, name, now, [])))
  }

  /** Creating a list under a fresh id and deleting that id restores the store. */
  lemma CreateThenDeleteList(s: S.Store, name: string, id: string, now: string, sel: Option<string>)
    requires !Blank(name)
    requires forall l :: l in s.shoppingLists ==> l.id != id
    ensures DeleteList(CreateList(s, name, id, now).value, sel, id).0 == s
  {
    Keyed.RemoveUndoesAppend(s.shoppingLists, S.ShoppingListId, ShoppingList(id, name, now, []));
  }

  /** The confirmed delete of `handleDeleteList`: the list goes, and so does the selection if it was that list. */
  function DeleteList(s: S.Store, sel: Option<string>, id: string): (r: (S.Store, Option<string>))
    ensures forall l :: l in r.0.shoppingLists <==> l in s.shoppingLists && l.id != id
    ensures r.0 == s.(shoppingLists := r.0.shoppingLists)
    ensures r.1.None? <==> sel.None? || sel.value == id
    ensures r.1.Some? ==> r.1 == sel
  {
    (S.DeleteShoppingList(s, id), if sel == Some(id) then None else sel)
  }

  /** Deleting another list leaves the shown list as it was. */
  lemma DeleteOtherKeepsSelection(s: S.Store, sel: Option<string>, id: string)
    requires sel != Some(id)
    ensures var r := DeleteList(s, sel, id); SelectedList(r.0, r.1) == SelectedList(s, sel)
  {
    if sel.Some? {
      Keyed.FindAfterRemove(s.shoppingLists, S.ShoppingListId, id, sel.value);
    }
  }

  // ---------------------------------------------------------------------------
  // Items of the selected list

  /** The item `handleAddItem` builds: unchecked, filed under the list, an empty quantity left out. */
  function NewItem(name: string, quantity: string, category: string, id: string, listId: string): (i: ShoppingItem)
    ensures !i.checked && i.listId == listId && i.id == id && i.name == name
    ensures i.quantity.None? <==> quantity == ""
    ensures i.category == Some(category)
  {
    ShoppingItem(id, name, NonEmpty(quantity), Some(category), false, listId)
  }

  /** `handleAddItem`: append one item to the selected list, then award 5 points. */
  function AddItem(s: S.Store, sel: Option<string>, name: string, quantity: string, category: string, id: string)
    : (r: Result<S.Store, Alert>)
    ensures r.Failure? <==> Blank(name) || SelectedList(s, sel).None?
    ensures r.Failure? ==> r.error == ItemIncomplete
    ensures r.Success? ==>
      var l := SelectedList(s, sel).value;
      && SelectedList(r.value, sel) == Some(l.(items := l.items + [NewItem(name, quantity, category, id, l.id)]))
      && |r.value.shoppingLists| == |s.shoppingLists|
      && (forall i :: 0 <= i < |s.shoppingLists| && s.shoppingLists[i].id != l.id ==>
            r.value.shoppingLists[i] == s.shoppingLists[i])
      && (s.userStats.Some? ==>
            && r.value.userStats.Some?
            && r.value.userStats.value.totalPoints == s.userStats.value.totalPoints + 5
            && r.value.userStats.value.shoppingItemsAdded == s.userStats.value.shoppingItemsAdded
            && r.value.userStats == Some(P.AddPoints(s.userStats.value, 5)))
      && r.value == s.(shoppingLists := r.value.shoppingLists, userStats := r.value.userStats)
  {
    match SelectedList(s, sel)
    case None => Failure(ItemIncomplete)
    case Some(l) =>
      if Blank(name) then Failure(ItemIncomplete)
      else
        var updated := l.(items := l.items + [NewItem(name, quantity, category, id, l.id)]);
        var s1 := S.UpdateShoppingList(s, updated);
        Keyed.ReplaceThenFind(s.shoppingLists, S.ShoppingListId, updated);
        Success(S.AddPoints(s1, 5))
  }

  /** An added item's 5 points keep the level in step with the total and lift it by at most one. */
  lemma AddItemLevel(s: S.Store, sel: Option<string>, name: string, quantity: string, category: string, id: string)
    requires s.userStats.Some? && s.userStats.value.level == P.LevelOf(s.userStats.value.totalPoints)
    ensures var r := AddItem(s, sel, name, quantity, category, id);
      r.Success? ==>
        var before, after := s.userStats.value, r.value.userStats.value;
        after.level == P.LevelOf(after.totalPoints) && before.level <= after.level <= before.level + 1
  {
    P.AwardRaisesLevelByAtMostOne(s.userStats.value, 5);
  }

  /** `items.map(i => i.id === itemId ? { ...i, checked: !i.checked } : i)`. */
  function FlipChecked(items: seq<ShoppingItem>, itemId: string): (r: seq<ShoppingItem>)
    ensures |r| == |items|
    ensures forall i :: 0 <= i < |items| && items[i].id == itemId ==>
      r[i] == items[i].(checked := !items[i].checked)
    ensures forall i :: 0 <= i < |items| && items[i].id != itemId ==> r[i] == items[i]
  {
    seq(|items|, i requires 0 <= i < |items| =>
      if items[i].id == itemId then items[i].(checked := !items[i].checked) else items[i])
  }

  lemma FlipTwice(items: seq<ShoppingItem>, itemId: string)
    ensures FlipChecked(FlipChecked(items, itemId), itemId) == items
  {
  }

  /** `handleToggleItem`: without a selected list nothing happens. */
  function ToggleItem(s: S.Store, sel: Option<string>, itemId: string): (r: S.Store)
    ensures SelectedList(s, sel).None? ==> r == s
    ensures SelectedList(s, sel).Some? ==>
      var l := SelectedList(s, sel).value;
      SelectedList(r, sel) == Some(l.(items := FlipChecked(l.items, itemId)))
    ensures r == s.(shoppingLists := r.shoppingLists)
  {
    match SelectedList(s, sel)
    case None => s
    case Some(l) =>
      var updated := l.(items := FlipChecked(l.items, itemId));
      Keyed.ReplaceThenFind(s.shoppingLists, S.ShoppingListId, updated);
      S.UpdateShoppingList(s, updated)
  }

  /** Ticking an item twice restores the store (list ids being distinct). */
  lemma ToggleTwice(s: S.Store, sel: Option<string>, itemId: string)
    requires Keyed.UniqueKeys(s.shoppingLists, S.ShoppingListId)
    ensures ToggleItem(ToggleItem(s, sel, itemId), sel, itemId) == s
  {
    if SelectedList(s, sel).Some? {
      var l := SelectedList(s, sel).value;
      var l1 := l.(items := FlipChecked(l.items, itemId));
      FlipTwice(l.items, itemId);
      assert l1.(items := FlipChecked(l1.items, itemId)) == l;
      Keyed.ReplaceRestores(s.shoppingLists, S.ShoppingListId, l1, l);
    }
  }

  /** The confirmed delete of `handleDeleteItem`: the selected list keeps every item with another id. */
  function DeleteItem(s: S.Store, sel: Option<string>, itemId: string): (r: S.Store)
    ensures SelectedList(s, sel).None? ==> r == s
    ensures SelectedList(s, sel).Some? ==>
      var l := SelectedList(s, sel).value;
      && SelectedList(r, sel).Some?
      && SelectedList(r, sel).value == l.(items := SelectedList(r, sel).value.items)
      && (forall i :: i in SelectedList(r, sel).value.items <==> i in l.items && i.id != itemId)
      && (forall i :: multiset(SelectedList(r, sel).value.items)[i]
                       == if i.id != itemId then multiset(l.items)[i] else 0)
    ensures r == s.(shoppingLists := r.shoppingLists)
  {
    match SelectedList(s, sel)
    case None => s
    case Some(l) =>
      var updated := l.(items := Keyed.RemoveById(l.items, ItemId, itemId));
      Keyed.ReplaceThenFind(s.shoppingLists, S.ShoppingListId, updated);
      S.UpdateShoppingList(s, updated)
  }

  /** Adding an item under a fresh id and deleting it again restores every list (the 5 points stay). */
  lemma AddThenDeleteItem(s: S.Store, sel: Option<string>, name: string, quantity: string, category: string, id: string)
    requires Keyed.UniqueKeys(s.shoppingLists, S.ShoppingListId)
    requires AddItem(s, sel, name, quantity, category, id).Success?
    requires forall i :: i in SelectedList(s, sel).value.items ==> i.id != id
    ensures DeleteItem(AddItem(s, sel, name, quantity, category, id).value, sel, id).shoppingLists
         == s.shoppingLists
  {
    var l := SelectedList(s, sel).value;
    var item := NewItem(name, quantity, category, id, l.id);
    var l1 := l.(items := l.items + [item]);
    Keyed.RemoveUndoesAppend(l.items, ItemId, item);
    assert l1.(items := Keyed.RemoveById(l1.items, ItemId, id)) == l;
    Keyed.ReplaceRestores(s.shoppingLists, S.ShoppingListId, l1, l);
  }

  // ---------------------------------------------------------------------------
  // The list card and the sorted view

  predicate IsChecked(i: ShoppingItem) { i.checked }
  predicate IsUnchecked(i: ShoppingItem) { !i.checked }

  /** `list.items.filter(i => i.checked).length`, shown as "checked/total". */
  function CheckedCount(l: ShoppingList): (n: nat)
    ensures n <= |l.items|
  {
    Count(l.items, IsChecked)
  }

  /** Checked and unchecked items account for every item; a new item counts as unchecked. */
  lemma CheckedCountParts(l: ShoppingList, x: ShoppingItem)
    ensures CheckedCount(l) + Count(l.items, IsUnchecked) == |l.items|
    ensures !x.checked ==> CheckedCount(l.(items := l.items + [x])) == CheckedCount(l)
  {
    FilterSplit(l.items, IsChecked, IsUnchecked);
    FilterConcat(l.items, [x], IsChecked);
  }

  /** Appending unchecked items leaves the checked count alone. */
  lemma CheckedCountAppend(l: ShoppingList, added: seq<ShoppingItem>)
    requires forall i :: 0 <= i < |added| ==> !added[i].checked
    ensures CheckedCount(l.(items := l.items + added)) == CheckedCount(l)
  {
    FilterConcat(l.items, added, IsChecked);
    FilterAll(added, IsUnchecked);
    FilterSplit(added, IsChecked, IsUnchecked);
  }

  /** The comparator of `sortedItems`: unchecked items first, then by category. */
  function ItemBefore(catLe: (Option<string>, Option<string>) -> bool): (ShoppingItem, ShoppingItem) -> bool {
    (a: ShoppingItem, b: ShoppingItem) =>
      if a.checked != b.checked then !a.checked else catLe(a.category, b.category)
  }

  lemma ItemOrderIsPreorder(catLe: (Option<string>, Option<string>) -> bool)
    requires Sorting.Total(catLe) && Sorting.Transitive(catLe)
    ensures Sorting.Total(ItemBefore(catLe)) && Sorting.Transitive(ItemBefore(catLe))
    ensures Sorting.Separates(ItemBefore(catLe), IsUnchecked)
  {
    var le := ItemBefore(catLe);
    forall a: ShoppingItem, b: ShoppingItem ensures le(a, b) || le(b, a) {
      assert catLe(a.category, b.category) || catLe(b.category, a.category);
    }
    forall a: ShoppingItem, b: ShoppingItem, c: ShoppingItem | le(a, b) && le(b, c) ensures le(a, c) {
      if a.checked == b.checked && b.checked == c.checked {
        assert catLe(a.category, b.category) && catLe(b.category, c.category);
      }
    }
  }

  /** `sortedItems`. */
  function SortedItems(l: ShoppingList, catLe: (Option<string>, Option<string>) -> bool): seq<ShoppingItem> {
    Sorting.SortBy(l.items, ItemBefore(catLe))
  }

  /** The view holds the same items, unchecked ones on top, and is ordered when the category order is. */
  lemma SortedItemsView(l: ShoppingList, catLe: (Option<string>, Option<string>) -> bool)
    ensures multiset(SortedItems(l, catLe)) == multiset(l.items)
    ensures Sorting.Partitioned(SortedItems(l, catLe), IsUnchecked)
    ensures Sorting.Total(catLe) && Sorting.Transitive(catLe) ==>
      Sorting.SortedBy(SortedItems(l, catLe), ItemBefore(catLe))
  {
    var le := ItemBefore(catLe);
    assert Sorting.Separates(le, IsUnchecked);
    Sorting.SortPartitioned(l.items, le, IsUnchecked);
    if Sorting.Total(catLe) && Sorting.Transitive(catLe) {
      ItemOrderIsPreorder(catLe);
      Sorting.SortSorted(l.items, le);
    }
  }
}
