/**
 * Persistence of saved recipes and of the last-used ingredient list in the
 * browser's local storage (services/storageService.ts).
 *
 * The store has two keys, 'what2cook_saved_recipes' and
 * 'what2cook_saved_ingredients'; each holds one JSON blob. A blob is modelled by
 * what parsing it yields: nothing stored, text that does not parse, or the
 * parsed array.
 */
module StorageService {
  import opened Wrappers
  import opened Types
  import Lists

  datatype Blob<T> = Missing | Corrupt | Valid(items: seq<T>)

  /** The list `getSavedRecipes` reads from a recipes blob: a missing or
      unparsable blob reads as the empty list. */
  function RecipesIn(b: Blob<Recipe>): seq<Recipe> {
    if b.Valid? then b.items else []
  }

  /** The list `saveRecipe` writes back: `recipes` with `recipe` appended, unless
      a recipe of the same name is already there (first write wins). */
  function WithRecipe(recipes: seq<Recipe>, recipe: Recipe): (r: seq<Recipe>)
    ensures |r| >= |recipes| && r[..|recipes|] == recipes
    ensures HasName(recipes, recipe.recipeName) ==> |r| == |recipes|
    ensures !HasName(recipes, recipe.recipeName) ==> |r| == |recipes| + 1 && r[|recipes|] == recipe
  {
    if HasName(recipes, recipe.recipeName) then recipes else recipes + [recipe]
  }

  /** The list `removeRecipe` writes back: every recipe not named `name`, in order. */
  function WithoutRecipe(recipes: seq<Recipe>, name: string): (r: seq<Recipe>)
    ensures !HasName(r, name)
    ensures forall x :: x in recipes && x.recipeName != name ==> x in r
    ensures forall x :: x in r ==> x in recipes
    ensures forall x: Recipe :: x.recipeName != name ==> multiset(r)[x] == multiset(recipes)[x]
  {
    Lists.Filter(recipes, (x: Recipe) => x.recipeName != name)
  }

  /** Saving keeps names unique: a name that is already stored is not stored twice. */
  lemma {:induction false} WithRecipeKeepsNamesUnique(recipes: seq<Recipe>, recipe: Recipe)
    requires NamesUnique(recipes)
    ensures NamesUnique(WithRecipe(recipes, recipe))
  {
    if !HasName(recipes, recipe.recipeName) {
      var r := recipes + [recipe];
      assert r[|recipes|] == recipe;
      forall i | 0 <= i < |recipes| ensures recipes[i].recipeName != recipe.recipeName {
        assert recipes[i] in recipes;
      }
    }
  }

  /** Saving the same recipe twice is saving it once; saving any recipe under a
      name already stored changes nothing. */
  lemma {:induction false} WithRecipeIdempotent(recipes: seq<Recipe>, recipe: Recipe, other: Recipe)
    requires other.recipeName == recipe.recipeName
    ensures WithRecipe(WithRecipe(recipes, recipe), other) == WithRecipe(recipes, recipe)
  {
    WithRecipeHasName(recipes, recipe);
  }

  /** After a save the name is stored, whether or not it was before. */
  lemma {:induction false} WithRecipeHasName(recipes: seq<Recipe>, recipe: Recipe)
    ensures HasName(WithRecipe(recipes, recipe), recipe.recipeName)
  {
    if !HasName(recipes, recipe.recipeName) {
      assert (recipes + [recipe])[|recipes|] == recipe;
    }
  }

  /** Removing keeps names unique. */
  lemma {:induction false} WithoutRecipeKeepsNamesUnique(recipes: seq<Recipe>, name: string)
    requires NamesUnique(recipes)
    ensures NamesUnique(WithoutRecipe(recipes, name))
    decreases |recipes|
  {
    if recipes != [] {
      var tail := recipes[1..];
      WithoutRecipeKeepsNamesUnique(tail, name);
      var ft := WithoutRecipe(tail, name);
      WithoutRecipeStep(recipes, name);
      if recipes[0].recipeName != name {
        FirstNameNotInRest(recipes);
        ConsNamesUnique(recipes[0], ft);
      }
    }
  }

  lemma {:induction false} FirstNameNotInRest(recipes: seq<Recipe>)
    requires NamesUnique(recipes) && recipes != []
    ensures forall x :: x in recipes[1..] ==> x.recipeName != recipes[0].recipeName
  {
    forall x | x in recipes[1..] ensures x.recipeName != recipes[0].recipeName {
      var i :| 0 <= i < |recipes[1..]| && recipes[1..][i] == x;
      assert recipes[i + 1] == x;
    }
  }

  /** One step of the removal: the first recipe stays unless it has the name. */
  lemma {:induction false} WithoutRecipeStep(recipes: seq<Recipe>, name: string)
    requires recipes != []
    ensures WithoutRecipe(recipes, name)
         == (if recipes[0].recipeName != name then [recipes[0]] else []) + WithoutRecipe(recipes[1..], name)
  {
  }

  lemma {:induction false} ConsNamesUnique(x: Recipe, t: seq<Recipe>)
    requires NamesUnique(t)
    requires forall y :: y in t ==> y.recipeName != x.recipeName
    ensures NamesUnique([x] + t)
  {
    var s := [x] + t;
    forall i, j | 0 <= i < j < |s| ensures s[i].recipeName != s[j].recipeName {
      assert s[j] == t[j - 1];
      if i > 0 {
        assert s[i] == t[i - 1];
      }
    }
  }

  /** Removing a name that is not stored leaves the list as it is. */
  lemma {:induction false} WithoutAbsentRecipe(recipes: seq<Recipe>, name: string)
    requires !HasName(recipes, name)
    ensures WithoutRecipe(recipes, name) == recipes
  {
    Lists.FilterKeepsAll(recipes, (x: Recipe) => x.recipeName != name);
  }

  /** Saving a new recipe and then removing it by name gives back the list
      before the save. */
  lemma {:induction false} RemoveUndoesSave(recipes: seq<Recipe>, recipe: Recipe)
    requires !HasName(recipes, recipe.recipeName)
    ensures WithoutRecipe(WithRecipe(recipes, recipe), recipe.recipeName) == recipes
  {
    var keep := (x: Recipe) => x.recipeName != recipe.recipeName;
    Lists.FilterConcat(recipes, [recipe], keep);
    WithoutAbsentRecipe(recipes, recipe.recipeName);
    assert Lists.Filter([recipe], keep) == [];
  }

  /** The names stored after a save: the old names plus the saved one. */
  lemma {:induction false} NameSetWithRecipe(recipes: seq<Recipe>, recipe: Recipe)
    ensures NameSet(WithRecipe(recipes, recipe)) == NameSet(recipes) + {recipe.recipeName}
  {
    WithRecipeHasName(recipes, recipe);
    var after := WithRecipe(recipes, recipe);
    forall x | x in NameSet(after) ensures x in NameSet(recipes) + {recipe.recipeName} {
      var r :| r in after && r.recipeName == x;
      if r != recipe {
        assert r in recipes;
      }
    }
    forall x | x in NameSet(recipes) ensures x in NameSet(after) {
      var r :| r in recipes && r.recipeName == x;
      assert r in after;
    }
  }

  /** The names stored after a removal: the old names without the removed one. */
  lemma {:induction false} NameSetWithoutRecipe(recipes: seq<Recipe>, name: string)
    ensures NameSet(WithoutRecipe(recipes, name)) == NameSet(recipes) - {name}
  {
    var after := WithoutRecipe(recipes, name);
    forall x | x in NameSet(recipes) - {name} ensures x in NameSet(after) {
      var r :| r in recipes && r.recipeName == x;
      assert r in after;
    }
  }

  /** The browser's local storage, restricted to the application's two keys. */
  class LocalStore {
    var recipesBlob: Blob<Recipe>
    var ingredientsBlob: Blob<string>

    constructor (recipes: Blob<Recipe>, ingredients: Blob<string>)
      ensures recipesBlob == recipes && ingredientsBlob == ingredients
    {
      recipesBlob := recipes;
      ingredientsBlob := ingredients;
    }

    /** The saved recipes as `getSavedRecipes` reads them. */
    function SavedRecipes(): seq<Recipe>
      reads this
    {
      RecipesIn(recipesBlob)
    }

    /** `getSavedRecipes`: the parsed list, or the empty list when the key is
        missing or does not parse. */
    method GetSavedRecipes() returns (recipes: seq<Recipe>)
      ensures recipesBlob.Valid? ==> recipes == recipesBlob.items
      ensures !recipesBlob.Valid? ==> recipes == []
    {
      match recipesBlob
      case Valid(items) => recipes := items;
      case Missing => recipes := [];
      case Corrupt => recipes := [];
    }

    /** `saveRecipe`: no write at all when the name is already stored; otherwise
        the stored list with the recipe appended. The ingredients key is untouched. */
    method SaveRecipe(recipe: Recipe)
      modifies this
      ensures ingredientsBlob == old(ingredientsBlob)
      ensures HasName(old(SavedRecipes()), recipe.recipeName) ==> recipesBlob == old(recipesBlob)
      ensures !HasName(old(SavedRecipes()), recipe.recipeName) ==>
        recipesBlob == Valid(old(SavedRecipes()) + [recipe])
      ensures SavedRecipes() == WithRecipe(old(SavedRecipes()), recipe)
    {
      var recipes := GetSavedRecipes();
      var isAlreadySaved := exists r :: r in recipes && r.recipeName == recipe.recipeName;
      if !isAlreadySaved {
        recipesBlob := Valid(recipes + [recipe]);
      }
    }

    /** `removeRecipe`: always writes back the stored list without the recipes of
        that name, so an unparsable blob becomes an empty list. */
    method RemoveRecipe(name: string)
      modifies this
      ensures ingredientsBlob == old(ingredientsBlob)
      ensures recipesBlob == Valid(WithoutRecipe(old(SavedRecipes()), name))
    {
      var recipes := GetSavedRecipes();
      var updatedRecipes := Lists.Filter(recipes, (r: Recipe) => r.recipeName != name);
      recipesBlob := Valid(updatedRecipes);
    }

    /** `getSavedIngredients`: the parsed list, or null when the key is missing or
        does not parse. */
    method GetSavedIngredients() returns (ingredients: Option<seq<string>>)
      ensures ingredientsBlob.Valid? ==> ingredients == Some(ingredientsBlob.items)
      ensures !ingredientsBlob.Valid? ==> ingredients == None
    {
      match ingredientsBlob
      case Valid(items) => ingredients := Some(items);
      case Missing => ingredients := None;
      case Corrupt => ingredients := None;
    }

    /** `saveIngredients`: stores the list as given, order included, so that the
        next `getSavedIngredients` returns it. The recipes key is untouched. */
    method SaveIngredients(ingredients: seq<string>)
      modifies this
      ensures recipesBlob == old(recipesBlob)
      ensures ingredientsBlob == Valid(ingredients)
    {
      ingredientsBlob := Valid(ingredients);
    }
  }

  /** Storing an ingredient list and reading it back returns the same list, and
      leaves the saved recipes as they were. */
  method SaveThenLoadIngredients(store: LocalStore, ingredients: seq<string>) returns (loaded: Option<seq<string>>)
    modifies store
    ensures loaded == Some(ingredients)
    ensures store.recipesBlob == old(store.recipesBlob)
  {
    store.SaveIngredients(ingredients);
    loaded := store.GetSavedIngredients();
  }
}
