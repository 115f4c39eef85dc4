/**
 * The recipe request form (components/RecipeForm.tsx): the ingredient list and
 * the five preferences, their initial values, the cuisine/region coupling and
 * the guarded submit.
 *
 * The component's `useEffect` that stores the ingredient list whenever it changes
 * is folded into the operations that change the list: after each of them the
 * stored list equals the current one.
 */
module RecipeForm {
  import opened Wrappers
  import opened Types
  import opened StorageService

  const MealTypeOptions: seq<string> := ["Breakfast", "Lunch", "Dinner", "Dessert", "Snack"]
  const CuisineOptions: seq<string> := ["Any", "Italian", "Mexican", "Indian", "Chinese", "Japanese", "Thai", "American"]
  const IndianRegionOptions: seq<string> := ["Any", "North", "South"]
  const DietOptions: seq<string> := ["None", "Vegetarian", "Vegan", "Gluten-Free", "Keto"]

  const DefaultIngredients: seq<string> := ["paneer", "spinach", "onion", "garlic"]

  /** The ingredient list the form starts with: the stored list when there is a
      non-empty one, the four defaults otherwise. */
  function InitialIngredients(saved: Option<seq<string>>): (r: seq<string>)
    ensures |r| > 0
    ensures saved.Some? && |saved.value| > 0 ==> r == saved.value
    ensures saved.None? || saved.value == [] ==> r == DefaultIngredients
  {
    if saved.Some? && |saved.value| > 0 then saved.value else DefaultIngredients
  }

  class FormState {
    const store: LocalStore
    var ingredients: seq<string>
    var mealType: string
    var cuisine: string
    var diet: string
    var indianCuisineRegion: string
    var specialRequests: string

    /** Each preference holds one of its options, the region is 'Any' unless the
        cuisine is Indian, and the stored ingredient list is the current one. */
    ghost predicate Valid()
      reads this, store
    {
      mealType in MealTypeOptions &&
      cuisine in CuisineOptions &&
      diet in DietOptions &&
      indianCuisineRegion in IndianRegionOptions &&
      (cuisine != "Indian" ==> indianCuisineRegion == "Any") &&
      store.ingredientsBlob == Blob.Valid(ingredients)
    }

    /** Mounting the form: ingredients from storage or the defaults, the default
        preferences, and the first run of the storing effect. */
    constructor (store: LocalStore)
      modifies store
      ensures this.store == store
      ensures ingredients == InitialIngredients(
        if old(store.ingredientsBlob).Valid? then Some(old(store.ingredientsBlob).items) else None)
      ensures mealType == "Dinner" && cuisine == "Indian" && diet == "Vegetarian"
      ensures indianCuisineRegion == "Any" && specialRequests == ""
      ensures store.recipesBlob == old(store.recipesBlob)
      ensures Valid()
    {
      var savedIngredients := store.GetSavedIngredients();
      var initial := InitialIngredients(savedIngredients);
      this.store := store;
      ingredients := initial;
      mealType := "Dinner";
      cuisine := "Indian";
      diet := "Vegetarian";
      indianCuisineRegion := "Any";
      specialRequests := "";
      new;
      store.SaveIngredients(ingredients);
    }

    /** `setIngredients`, followed by the effect that stores the new list. */
    method SetIngredients(list: seq<string>)
      requires Valid()
      modifies this, store
      ensures Valid()
      ensures ingredients == list
      ensures mealType == old(mealType) && cuisine == old(cuisine) && diet == old(diet)
      ensures indianCuisineRegion == old(indianCuisineRegion) && specialRequests == old(specialRequests)
      ensures store.recipesBlob == old(store.recipesBlob)
    {
      ingredients := list;
      store.SaveIngredients(list);
    }

    /** The meal-type selector offers only its options. */
    method SelectMealType(value: string)
      requires Valid() && value in MealTypeOptions
      modifies this
      ensures Valid()
      ensures mealType == value
      ensures ingredients == old(ingredients) && cuisine == old(cuisine) && diet == old(diet)
      ensures indianCuisineRegion == old(indianCuisineRegion) && specialRequests == old(specialRequests)
    {
      mealType := value;
    }

    /** `handleCuisineChange`: any cuisine but Indian resets the region to 'Any';
        choosing Indian keeps the region. */
    method HandleCuisineChange(value: string)
      requires Valid() && value in CuisineOptions
      modifies this
      ensures Valid()
      ensures cuisine == value
      ensures value != "Indian" ==> indianCuisineRegion == "Any"
      ensures value == "Indian" ==> indianCuisineRegion == old(indianCuisineRegion)
      ensures ingredients == old(ingredients) && mealType == old(mealType) && diet == old(diet)
      ensures specialRequests == old(specialRequests)
    {
      cuisine := value;
      if value != "Indian" {
        indianCuisineRegion := "Any";
      }
    }

    /** The region selector is shown only while the cuisine is Indian. */
    method SelectRegion(value: string)
      requires Valid() && cuisine == "Indian" && value in IndianRegionOptions
      modifies this
      ensures Valid()
      ensures indianCuisineRegion == value
      ensures ingredients == old(ingredients) && mealType == old(mealType) && cuisine == old(cuisine)
      ensures diet == old(diet) && specialRequests == old(specialRequests)
    {
      indianCuisineRegion := value;
    }

    method SelectDiet(value: string)
      requires Valid() && value in DietOptions
      modifies this
      ensures Valid()
      ensures diet == value
      ensures ingredients == old(ingredients) && mealType == old(mealType) && cuisine == old(cuisine)
      ensures indianCuisineRegion == old(indianCuisineRegion) && specialRequests == old(specialRequests)
    {
      diet := value;
    }

    /** The special-requests text area accepts any text. */
    method HandleSpecialRequestsChange(value: string)
      requires Valid()
      modifies this
      ensures Valid()
      ensures specialRequests == value
      ensures ingredients == old(ingredients) && mealType == old(mealType) && cuisine == old(cuisine)
      ensures diet == old(diet) && indianCuisineRegion == old(indianCuisineRegion)
    {
      specialRequests := value;
    }

    /** `handleSubmit`: no submission with an empty ingredient list; otherwise the
        six current values, unchanged, handed to `onSubmit` once. */
    method HandleSubmit() returns (submitted: Option<FormData>)
      requires Valid()
      ensures submitted.None? <==> ingredients == []
      ensures submitted.Some? ==> submitted.value == FormData(ingredients, mealType, cuisine, diet,
                                                              Some(indianCuisineRegion), Some(specialRequests))
      ensures submitted.Some? ==>
        |submitted.value.ingredients| > 0 &&
        (submitted.value.cuisine != "Indian" ==> submitted.value.indianCuisineRegion == Some("Any"))
    {
      if |ingredients| == 0 {
        return None;
      }
      submitted := Some(FormData(ingredients, mealType, cuisine, diet,
                                 Some(indianCuisineRegion), Some(specialRequests)));
    }
  }
}
