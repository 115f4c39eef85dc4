/**
 * What the result area of the home screen shows (components/RecipeList.tsx):
 * a loading skeleton, an error, the empty state, or one card per recipe.
 *
 * `recipes` is None for `null`. An empty array is truthy in JavaScript, so
 * Some([]) is not "no recipes": it selects the card grid, with no card in it.
 */
module RecipeList {
  import opened Wrappers
  import opened Types

  /** A recipe card: the recipe, whether it shows as saved, and whether it offers
      the save action (cards of the saved-recipes screen do not). */
  datatype Card = Card(recipe: Recipe, isSaved: bool, offersSave: bool)

  datatype ListView =
    | LoadingSkeleton
    | ErrorState(message: string)
    | EmptyState
    | RecipeCards(cards: seq<Card>)

  /** One card per recipe, in order, marked saved exactly when its name is saved. */
  function Cards(recipes: seq<Recipe>, savedRecipeNames: set<string>): (cards: seq<Card>)
    ensures |cards| == |recipes|
    ensures forall i :: 0 <= i < |cards| ==>
      cards[i].recipe == recipes[i] && cards[i].offersSave &&
      (cards[i].isSaved <==> recipes[i].recipeName in savedRecipeNames)
  {
    seq(|recipes|, i requires 0 <= i < |recipes| =>
      Card(recipes[i], recipes[i].recipeName in savedRecipeNames, true))
  }

  /** The chain of early returns: the skeleton while loading with no recipes
      (even with an error set), then a non-empty error, then the empty state for
      null recipes, and the cards otherwise. */
  function Select(isLoading: bool, error: Option<string>, recipes: Option<seq<Recipe>>,
                  savedRecipeNames: set<string>): (v: ListView)
    ensures v.LoadingSkeleton? <==> isLoading && recipes.None?
    ensures v.ErrorState? <==> !(isLoading && recipes.None?) && Truthy(error)
    ensures v.ErrorState? ==> v.message == error.value
    ensures v.EmptyState? <==> !isLoading && !Truthy(error) && recipes.None?
    ensures v.RecipeCards? <==> recipes.Some? && !Truthy(error)
    ensures v.RecipeCards? ==>
      |v.cards| == |recipes.value| &&
      forall i :: 0 <= i < |v.cards| ==>
        v.cards[i].recipe == recipes.value[i] &&
        (v.cards[i].isSaved <==> recipes.value[i].recipeName in savedRecipeNames)
  {
    if isLoading && recipes.None? then LoadingSkeleton
    else if Truthy(error) then ErrorState(error.value)
    else if recipes.None? then EmptyState
    else RecipeCards(Cards(recipes.value, savedRecipeNames))
  }

  /** Saving or removing a name changes only the saved mark of the cards with
      that name; the choice of view and every other card stay as they were. */
  lemma {:induction false} SavedNamesOnlyMarkCards(isLoading: bool, error: Option<string>, recipes: Option<seq<Recipe>>,
                                names1: set<string>, names2: set<string>, i: nat)
    requires Select(isLoading, error, recipes, names1).RecipeCards?
    requires i < |recipes.value|
    requires recipes.value[i].recipeName in names1 <==> recipes.value[i].recipeName in names2
    ensures Select(isLoading, error, recipes, names2).RecipeCards?
    ensures Select(isLoading, error, recipes, names1).cards[i] == Select(isLoading, error, recipes, names2).cards[i]
  {
  }
}
