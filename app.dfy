/**
 * The application shell (App.tsx): the set of saved recipe names, the
 * loading/error/recipes status of a generation, and the choice between the home
 * screen and the saved-recipes screen.
 *
 * `handleGenerateRecipes` awaits the service; other handlers can run while it
 * waits. It is therefore modelled as two steps, BeginGeneration (before the
 * await) and EndGeneration (after it), and HandleGenerateRecipes runs both with
 * the service's answer in between.
 */
module App {
  import opened Wrappers
  import opened Types
  import opened StorageService
  import GeminiService
  import RecipeList

  const NoRecipesFoundMessage: string := "Couldn't find any recipes with those ingredients. Try adding more!"
  const UnexpectedErrorMessage: string := "An unexpected error occurred. Please try again later."

  datatype View = Home | Saved

  /** What a failed generation threw: an Error with its message, or anything else. */
  datatype Thrown = ErrorObject(message: string) | NonError

  class AppState {
    const store: LocalStore
    var recipes: Option<seq<Recipe>>
    var isLoading: bool
    var error: Option<string>
    var view: View
    var savedRecipeNames: set<string>

    /** The saved-name set mirrors the names in storage; a generation in flight
        shows neither recipes nor an error; recipes and an error are never shown
        together; a shown result is never empty. */
    ghost predicate Valid()
      reads this, store
    {
      savedRecipeNames == NameSet(store.SavedRecipes()) &&
      (isLoading ==> recipes.None? && error.None?) &&
      (recipes.Some? ==> error.None? && |recipes.value| > 0)
    }

    /** The result area of the home screen for the current state. */
    function ResultArea(): RecipeList.ListView
      reads this
    {
      RecipeList.Select(isLoading, error, recipes, savedRecipeNames)
    }

    /** Mounting the application, with the effect that reads the saved names. */
    constructor (store: LocalStore)
      ensures this.store == store
      ensures recipes == None && !isLoading && error == None && view == Home
      ensures savedRecipeNames == NameSet(store.SavedRecipes())
      ensures Valid()
    {
      this.store := store;
      recipes := None;
      isLoading := false;
      error := None;
      view := Home;
      new;
      var saved := store.GetSavedRecipes();
      savedRecipeNames := set r | r in saved :: r.recipeName;
    }

    /** `handleSaveRecipe`: store the recipe, and add its name to the set. */
    method HandleSaveRecipe(recipe: Recipe)
      requires Valid()
      modifies this, store
      ensures Valid()
      ensures store.SavedRecipes() == WithRecipe(old(store.SavedRecipes()), recipe)
      ensures store.ingredientsBlob == old(store.ingredientsBlob)
      ensures savedRecipeNames == old(savedRecipeNames) + {recipe.recipeName}
      ensures recipes == old(recipes) && isLoading == old(isLoading)
      ensures error == old(error) && view == old(view)
    {
      NameSetWithRecipe(store.SavedRecipes(), recipe);
      store.SaveRecipe(recipe);
      savedRecipeNames := savedRecipeNames + {recipe.recipeName};
    }

    /** `handleRemoveRecipe`: remove the recipe from storage, and its name from the set. */
    method HandleRemoveRecipe(recipeName: string)
      requires Valid()
      modifies this, store
      ensures Valid()
      ensures store.recipesBlob == Blob.Valid(WithoutRecipe(old(store.SavedRecipes()), recipeName))
      ensures store.ingredientsBlob == old(store.ingredientsBlob)
      ensures savedRecipeNames == old(savedRecipeNames) - {recipeName}
      ensures recipes == old(recipes) && isLoading == old(isLoading)
      ensures error == old(error) && view == old(view)
    {
      NameSetWithoutRecipe(store.SavedRecipes(), recipeName);
      store.RemoveRecipe(recipeName);
      savedRecipeNames := savedRecipeNames - {recipeName};
    }

    /** The synchronous start of `handleGenerateRecipes`: loading, nothing shown,
        so the result area is the skeleton. */
    method BeginGeneration()
      requires Valid()
      modifies this
      ensures Valid()
      ensures isLoading && error == None && recipes == None
      ensures view == old(view) && savedRecipeNames == old(savedRecipeNames)
      ensures ResultArea() == RecipeList.LoadingSkeleton
    {
      isLoading := true;
      error := None;
      recipes := None;
    }

    /** The end of `handleGenerateRecipes` once the service has answered: a
        non-empty list is shown; null or an empty list sets the "no recipes" error;
        a thrown Error sets its message, anything else thrown the generic message.
        Loading ends in every case. */
    method EndGeneration(outcome: Result<Option<seq<Recipe>>, Thrown>)
      requires Valid() && isLoading
      modifies this
      ensures Valid()
      ensures !isLoading
      ensures outcome.Success? && outcome.value.Some? && |outcome.value.value| > 0 ==>
        recipes == outcome.value && error == None
      ensures outcome.Success? && (outcome.value.None? || outcome.value.value == []) ==>
        recipes == None && error == Some(NoRecipesFoundMessage)
      ensures outcome.Failure? && outcome.error.ErrorObject? ==>
        recipes == None && error == Some(outcome.error.message)
      ensures outcome == Failure(NonError) ==> recipes == None && error == Some(UnexpectedErrorMessage)
      ensures view == old(view) && savedRecipeNames == old(savedRecipeNames)
    {
      match outcome {
        case Success(result) =>
          if result.Some? && |result.value| > 0 {
            recipes := result;
          } else {
            error := Some(NoRecipesFoundMessage);
          }
        case Failure(thrown) =>
          match thrown {
            case ErrorObject(message) => error := Some(message);
            case NonError => error := Some(UnexpectedErrorMessage);
          }
      }
      isLoading := false;
    }

    /** `handleGenerateRecipes` for one request, with nothing else happening while
        it waits. The service's answer is GenerateRecipes of the same inputs. */
    method HandleGenerateRecipes(apiKeyConfigured: bool, formData: FormData,
                                 text: string -> GeminiService.TextOutcome,
                                 image: (nat, string) -> Option<string>)
      requires Valid()
      modifies this
      ensures Valid()
      ensures !isLoading
      ensures view == old(view) && savedRecipeNames == old(savedRecipeNames)
      ensures var result := GeminiService.GenerateRecipes(apiKeyConfigured, formData, text, image);
        (result.Success? && result.value.Some? ==> recipes == result.value && error == None) &&
        (result == Success(None) ==> recipes == None && error == Some(NoRecipesFoundMessage)) &&
        (result.Failure? ==> recipes == None && error == Some(result.error))
    {
      BeginGeneration();
      var result := GeminiService.GenerateRecipes(apiKeyConfigured, formData, text, image);
      var outcome := match result
        case Success(v) => Success(v)
        case Failure(message) => Failure(ErrorObject(message));
      EndGeneration(outcome);
    }

    /** `showSavedRecipes`: switch to the saved screen and forget the last result. */
    method ShowSavedRecipes()
      requires Valid()
      modifies this
      ensures Valid()
      ensures view == Saved && recipes == None && error == None
      ensures isLoading == old(isLoading) && savedRecipeNames == old(savedRecipeNames)
    {
      view := Saved;
      recipes := None;
      error := None;
    }

    /** The back button of the saved screen. */
    method ShowHome()
      requires Valid()
      modifies this
      ensures Valid()
      ensures view == Home
      ensures recipes == old(recipes) && error == old(error) && isLoading == old(isLoading)
      ensures savedRecipeNames == old(savedRecipeNames)
    {
      view := Home;
    }
  }

  /** In a consistent state the result area never shows an empty card grid, and
      it shows the cards exactly when there are recipes. */
  lemma {:induction false} ResultAreaOfValidState(isLoading: bool, error: Option<string>, recipes: Option<seq<Recipe>>,
                               names: set<string>)
    requires isLoading ==> recipes.None? && error.None?
    requires recipes.Some? ==> error.None? && |recipes.value| > 0
    ensures var v := RecipeList.Select(isLoading, error, recipes, names);
      (v.RecipeCards? <==> recipes.Some?) &&
      (v.RecipeCards? ==> |v.cards| > 0) &&
      (v.LoadingSkeleton? <==> isLoading) &&
      (v.ErrorState? ==> !isLoading && recipes.None?)
  {
  }

  /** The form only submits a non-empty ingredient list, so the service's
      empty-ingredients error cannot reach the application through the form. */
  lemma {:induction false} SubmittedFormsPassIngredientCheck(apiKeyConfigured: bool, formData: FormData,
                                          text: string -> GeminiService.TextOutcome,
                                          image: (nat, string) -> Option<string>)
    requires |formData.ingredients| > 0
    ensures GeminiService.GenerateRecipes(apiKeyConfigured, formData, text, image)
         != Failure(GeminiService.NoIngredientsMessage)
  {
  }
}
