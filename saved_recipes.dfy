/**
 * The saved-recipes screen (components/SavedRecipes.tsx): a local copy of the
 * stored recipes, loaded once, from which removed recipes are filtered out.
 */
module SavedRecipes {
  import opened Types
  import opened StorageService
  import App
  import RecipeList

  datatype SavedView =
    | NoSavedRecipes
    | SavedCards(cards: seq<RecipeList.Card>)

  /** The empty message for no recipes; otherwise one card per recipe, in order,
      every one shown as saved and none offering the save action. */
  function Display(recipes: seq<Recipe>): (v: SavedView)
    ensures v.NoSavedRecipes? <==> recipes == []
    ensures v.SavedCards? ==>
      |v.cards| == |recipes| &&
      forall i :: 0 <= i < |v.cards| ==>
        v.cards[i].recipe == recipes[i] && v.cards[i].isSaved && !v.cards[i].offersSave
  {
    if |recipes| > 0 then
      SavedCards(seq(|recipes|, i requires 0 <= i < |recipes| => RecipeList.Card(recipes[i], true, false)))
    else NoSavedRecipes
  }

  class SavedRecipesPanel {
    const app: App.AppState
    var recipes: seq<Recipe>

    /** The local list is the stored list. */
    ghost predicate Valid()
      reads this, app, app.store
    {
      app.Valid() && recipes == app.store.SavedRecipes()
    }

    /** Mounting the screen: the effect that loads the stored recipes. */
    constructor (app: App.AppState)
      requires app.Valid()
      ensures this.app == app
      ensures recipes == app.store.SavedRecipes()
      ensures Valid()
    {
      this.app := app;
      new;
      recipes := app.store.GetSavedRecipes();
    }

    /** `handleRemove`: pass the same name to the application's remover, then drop
        the recipes of that name from the local list, keeping the others in order. */
    method HandleRemove(recipeName: string)
      requires Valid()
      modifies this, app, app.store
      ensures Valid()
      ensures recipes == WithoutRecipe(old(recipes), recipeName)
      ensures app.savedRecipeNames == old(app.savedRecipeNames) - {recipeName}
      ensures app.view == old(app.view) && app.recipes == old(app.recipes) && app.error == old(app.error)
    {
      app.HandleRemoveRecipe(recipeName);
      recipes := WithoutRecipe(recipes, recipeName);
    }
  }

  /** After a removal the screen no longer shows the removed name, and every other
      recipe it showed is still shown. */
  lemma {:induction false} RemovedRecipeLeavesScreen(recipes: seq<Recipe>, recipeName: string)
    ensures var v := Display(WithoutRecipe(recipes, recipeName));
      v.SavedCards? ==> forall i :: 0 <= i < |v.cards| ==> v.cards[i].recipe.recipeName != recipeName
    ensures forall r :: r in recipes && r.recipeName != recipeName ==>
      var v := Display(WithoutRecipe(recipes, recipeName));
      v.SavedCards? && exists i :: 0 <= i < |v.cards| && v.cards[i].recipe == r
  {
    var after := WithoutRecipe(recipes, recipeName);
    var v := Display(after);
    forall r | r in recipes && r.recipeName != recipeName
      ensures v.SavedCards? && exists i :: 0 <= i < |v.cards| && v.cards[i].recipe == r
    {
      assert r in after;
      var i :| 0 <= i < |after| && after[i] == r;
      assert v.cards[i].recipe == r;
    }
    if v.SavedCards? {
      forall i | 0 <= i < |v.cards| ensures v.cards[i].recipe.recipeName != recipeName {
        assert v.cards[i].recipe in after;
      }
    }
  }
}
