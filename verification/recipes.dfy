/**
  The recipe screen (app/other/recipes.tsx): the ingredient list of the
  recipe being written, the recipe-creation check, and "add to shopping
  list", which turns each ingredient of the shown recipe into one shopping item.

  `parseFloat` on the quantity field and the fresh ids (`Date.now()`, plus
  `Math.random()` for the shopping items) are parameters.
 */
module Recipes {
  import opened Common
  import opened Types
  import Keyed
  import S = Store
  import P = Progression
  import Shopping

  datatype Alert = IngredientIncomplete | RecipeIncomplete | NoShoppingList

  const DefaultUnit: string := "unit"

  function IngredientId(i: Ingredient): string { i.id }

  // ---------------------------------------------------------------------------
  // The ingredient list of the form

  /** `handleAddIngredient`: a name and a quantity are required; an empty unit becomes "unit". */
  function AddIngredient(ings: seq<Ingredient>, name: string, quantity: string, unit: string, id: string,
                         parseFloat: string -> real): (r: Result<seq<Ingredient>, Alert>)
    ensures r.Failure? <==> Blank(name) || Blank(quantity)
    ensures r.Failure? ==> r.error == IngredientIncomplete
    ensures r.Success? ==>
      && |r.value| == |ings| + 1
      && r.value[..|ings|] == ings
      && var i := r.value[|ings|];
         && i.id == id && i.name == name && i.quantity == parseFloat(quantity)
         && i.unit == (if unit == "" then DefaultUnit else unit)
  {
    if Blank(name) || Blank(quantity) then Failure(IngredientIncomplete)
    else Success(ings + [Ingredient(id, name, parseFloat(quantity), if unit == "" then DefaultUnit else unit)])
  }

  /** `handleRemoveIngredient`: drop exactly the ingredients carrying that id. */
  function RemoveIngredient(ings: seq<Ingredient>, id: string): (r: seq<Ingredient>)
    ensures forall i :: i in r <==> i in ings && i.id != id
    ensures forall i :: multiset(r)[i] == if i.id != id then multiset(ings)[i] else 0
    ensures |r| <= |ings|
  {
    Keyed.RemoveById(ings, IngredientId, id)
  }

  /** Removing an ingredient just added under a fresh id restores the list. */
  lemma AddThenRemoveIngredient(ings: seq<Ingredient>, name: string, quantity: string, unit: string, id: string,
                                parseFloat: string -> real)
    requires !Blank(name) && !Blank(quantity)
    requires forall i :: i in ings ==> i.id != id
    ensures RemoveIngredient(AddIngredient(ings, name, quantity, unit, id, parseFloat).value, id) == ings
  {
    var added := AddIngredient(ings, name, quantity, unit, id, parseFloat).value;
    Keyed.RemoveUndoesAppend(ings, IngredientId, added[|ings|]);
    assert ings + [added[|ings|]] == added;
  }

  // ---------------------------------------------------------------------------
  // Creating a recipe

  /** The recipe form: title, picked image, ingredient list and instructions. */
  datatype Draft = Draft(title: string, image: Option<string>, ingredients: seq<Ingredient>, instructions: string)

  predicate Complete(d: Draft) {
    !Blank(d.title) && |d.ingredients| > 0 && !Blank(d.instructions)
  }

  /** `handleCreateRecipe`: a complete form is stored as a new recipe (and earns 50 points). */
  function CreateRecipe(s: S.Store, d: Draft, id: string, now: string): (r: Result<S.Store, Alert>)
    ensures r.Failure? <==> Blank(d.title) || |d.ingredients| == 0 || Blank(d.instructions)
    ensures r.Failure? ==> r.error == RecipeIncomplete
    ensures r.Success? ==>
      && r.value.recipes == s.recipes + [Recipe(id, d.title, d.image, d.ingredients, d.instructions, now)]
      && (s.userStats.Some? ==>
            && r.value.userStats.Some?
            && r.value.userStats.value.totalPoints == s.userStats.value.totalPoints + 50
            && r.value.userStats.value.recipesCreated == s.userStats.value.recipesCreated
            && r.value.userStats == Some(P.AddPoints(s.userStats.value, 50)))
      && r.value == s.(recipes := r.value.recipes, userStats := r.value.userStats)
  {
    if !Complete(d) then Failure(RecipeIncomplete)
    else Success(S.AddRecipe(s, Recipe(id, d.title, d.image, d.ingredients, d.instructions, now)))
  }

  /** A created recipe's 50 points keep the level in step with the total and lift it by at most one. */
  lemma CreateRecipeLevel(s: S.Store, d: Draft, id: string, now: string)
    requires s.userStats.Some? && s.userStats.value.level == P.LevelOf(s.userStats.value.totalPoints)
    ensures var r := CreateRecipe(s, d, id, now);
      r.Success? ==>
        var before, after := s.userStats.value, r.value.userStats.value;
        after.level == P.LevelOf(after.totalPoints) && before.level <= after.level <= before.level + 1
  {
    P.AwardRaisesLevelByAtMostOne(s.userStats.value, 50);
  }

  /** Every stored recipe created through the form has at least one ingredient. */
  lemma CreatedRecipesHaveIngredients(s: S.Store, d: Draft, id: string, now: string)
    requires forall rc :: rc in s.recipes ==> |rc.ingredients| > 0
    ensures CreateRecipe(s, d, id, now).Success? ==>
      forall rc :: rc in CreateRecipe(s, d, id, now).value.recipes ==> |rc.ingredients| > 0
  {
  }

  // ---------------------------------------------------------------------------
  // Adding the ingredients to a shopping list

  /** The shopping item made from one ingredient: same name, the quantity rounded up and spelled in
      decimal, category "Other", unchecked, filed under the chosen list. The unit is dropped. */
  function IngredientItem(ing: Ingredient, id: string, listId: string): (item: ShoppingItem)
    ensures item.name == ing.name && item.category == Some(Shopping.DefaultCategory)
    ensures !item.checked && item.listId == listId && item.id == id
    ensures item.quantity.Some?
  {
    ShoppingItem(id, ing.name, Some(IntToString(Ceil(ing.quantity))), Some(Shopping.DefaultCategory), false, listId)
  }

  /** A nonnegative ingredient quantity is written as digits that read back as its ceiling,
      which covers the quantity and exceeds it by less than one. */
  lemma ItemQuantityReadsBack(ing: Ingredient, id: string, listId: string)
    requires ing.quantity >= 0.0
    ensures var q := IngredientItem(ing, id, listId).quantity.value;
      && (forall k :: 0 <= k < |q| ==> IsDigit(q[k]))
      && DigitsValue(q) as real >= ing.quantity
      && DigitsValue(q) as real < ing.quantity + 1.0
  {
    var c := Ceil(ing.quantity);
    NatToStringRoundTrip(c);
  }

  /** `selectedRecipe.ingredients.map(...)`, with the i-th item id drawn from `freshId(i)`. */
  function NewItems(ings: seq<Ingredient>, listId: string, freshId: nat -> string): (r: seq<ShoppingItem>)
    ensures |r| == |ings|
    ensures forall i :: 0 <= i < |ings| ==> r[i] == IngredientItem(ings[i], freshId(i), listId)
  {
    seq(|ings|, i requires 0 <= i < |ings| => IngredientItem(ings[i], freshId(i), listId))
  }

  /** `recipes.find(r => r.id === selectedRecipeId)`. */
  function SelectedRecipe(s: S.Store, sel: Option<string>): (r: Option<Recipe>)
    ensures r.Some? ==> sel.Some? && r.value in s.recipes && r.value.id == sel.value
    ensures r.None? <==> sel.None? || forall rc :: rc in s.recipes ==> rc.id != sel.value
  {
    match sel
    case None => None
    case Some(id) =>
      var key := S.RecipeId;
      assert forall rc :: key(rc) == rc.id;
      Find(s.recipes, Keyed.KeyIs(key, id))
  }

  /** The confirmed delete of `handleDeleteRecipe`: the recipe goes, and so does the selection if it
      was that recipe. */
  function DeleteRecipe(s: S.Store, sel: Option<string>, id: string): (r: (S.Store, Option<string>))
    ensures forall x :: x in r.0.recipes <==> x in s.recipes && x.id != id
    ensures r.0 == s.(recipes := r.0.recipes)
    ensures r.1.None? <==> sel.None? || sel.value == id
    ensures r.1.Some? ==> r.1 == sel
  {
    (S.DeleteRecipe(s, id), if sel == Some(id) then None else sel)
  }

  /** After a delete no recipe is shown when the shown one went, and the same one otherwise. */
  lemma DeleteRecipeView(s: S.Store, sel: Option<string>, id: string)
    ensures var r := DeleteRecipe(s, sel, id);
      SelectedRecipe(r.0, r.1) == if sel == Some(id) then None else SelectedRecipe(s, sel)
  {
    if sel.Some? && sel.value != id {
      Keyed.FindAfterRemove(s.recipes, S.RecipeId, id, sel.value);
    }
  }

  /** `handleAddToShopping`: needs a shown recipe and a chosen (nonempty) list id; a list id that
      no longer exists is a silent no-op; otherwise the list gets one new item per ingredient. */
  function AddToShopping(s: S.Store, recipeSel: Option<string>, listSel: Option<string>, freshId: nat -> string)
    : (r: Result<S.Store, Alert>)
    ensures r.Failure? <==> SelectedRecipe(s, recipeSel).None? || listSel.None? || listSel.value == ""
    ensures r.Failure? ==> r.error == NoShoppingList
    ensures r.Success? && Shopping.SelectedList(s, listSel).None? ==> r.value == s
    ensures r.Success? && Shopping.SelectedList(s, listSel).Some? ==>
      var l := Shopping.SelectedList(s, listSel).value;
      var ings := SelectedRecipe(s, recipeSel).value.ingredients;
      && Shopping.SelectedList(r.value, listSel) == Some(l.(items := l.items + NewItems(ings, l.id, freshId)))
      && |r.value.shoppingLists| == |s.shoppingLists|
      && (forall i :: 0 <= i < |s.shoppingLists| && s.shoppingLists[i].id != l.id ==>
            r.value.shoppingLists[i] == s.shoppingLists[i])
    ensures r.Success? ==> r.value == s.(shoppingLists := r.value.shoppingLists)
  {
    if SelectedRecipe(s, recipeSel).None? || listSel.None? || listSel.value == "" then Failure(NoShoppingList)
    else
      var rc := SelectedRecipe(s, recipeSel).value;
      match Shopping.SelectedList(s, listSel)
      case None => Success(s)
      case Some(l) =>
        var updated := l.(items := l.items + NewItems(rc.ingredients, listSel.value, freshId));
        Keyed.ReplaceThenFind(s.shoppingLists, S.ShoppingListId, updated);
        Success(S.UpdateShoppingList(s, updated))
  }

  /** The chosen list grows by exactly one item per ingredient, keeps its old items in front,
      and every item it gains is unchecked, so its checked count is unchanged. */
  lemma AddToShoppingGrowsList(s: S.Store, recipeSel: Option<string>, listSel: Option<string>, freshId: nat -> string)
    requires AddToShopping(s, recipeSel, listSel, freshId).Success?
    requires Shopping.SelectedList(s, listSel).Some?
    ensures var l := Shopping.SelectedList(s, listSel).value;
      var l2 := Shopping.SelectedList(AddToShopping(s, recipeSel, listSel, freshId).value, listSel).value;
      && |l2.items| == |l.items| + |SelectedRecipe(s, recipeSel).value.ingredients|
      && l2.items[..|l.items|] == l.items
      && Shopping.CheckedCount(l2) == Shopping.CheckedCount(l)
  {
    var l := Shopping.SelectedList(s, listSel).value;
    var ings := SelectedRecipe(s, recipeSel).value.ingredients;
    var added := NewItems(ings, l.id, freshId);
    Shopping.CheckedCountAppend(l, added);
    assert (l.items + added)[..|l.items|] == l.items;
  }
}
