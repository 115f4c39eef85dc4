/**
 * The ingredient chips and their text box (components/IngredientInput.tsx).
 *
 * The list itself belongs to the form (RecipeForm.FormState.ingredients); the
 * text box owns only the text typed so far. The list computations are pure
 * functions; the handlers are methods of InputBox that apply them to the form.
 */
module IngredientInput {
  import opened Wrappers
  import opened Types
  import opened Text
  import Lists
  import RecipeForm

  /** `input.trim().toLowerCase()`: blank exactly when the input is all
      whitespace, with no whitespace at either end and no upper-case letter. */
  function Normalize(input: string): (r: string)
    ensures r == "" <==> AllSpace(input)
    ensures TrimmedEnds(r)
    ensures forall i :: 0 <= i < |r| ==> !IsUpper(r[i])
  {
    ToLowerIdempotent(Trim(input));
    ToLower(Trim(input))
  }

  /** Normalizing a normalized value changes nothing. */
  lemma {:induction false} NormalizeIdempotent(input: string)
    ensures Normalize(Normalize(input)) == Normalize(input)
  {
    NormalizedIsFixed(Normalize(input));
  }

  lemma {:induction false} NormalizedIsFixed(n: string)
    requires TrimmedEnds(n)
    requires forall i :: 0 <= i < |n| ==> !IsUpper(n[i])
    ensures Normalize(n) == n
  {
    TrimFixed(n);
    assert ToLower(n) == n by {
      forall i | 0 <= i < |n| ensures ToLower(n)[i] == n[i] {
        assert !IsUpper(n[i]);
      }
    }
  }

  /** No value occurs twice in the list. */
  predicate Distinct(list: seq<string>) {
    forall i, j :: 0 <= i < j < |list| ==> list[i] != list[j]
  }

  /** The list after `handleAddIngredient` with text `input`: the normalized
      value appended at the end, unless it is blank or already listed. */
  function AddIngredient(list: seq<string>, input: string): (r: seq<string>)
    ensures AllSpace(input) || Normalize(input) in list ==> r == list
    ensures !AllSpace(input) && Normalize(input) !in list ==>
      |r| == |list| + 1 && r[..|list|] == list && r[|list|] == Normalize(input)
  {
    var value := Normalize(input);
    if value != "" && value !in list then list + [value] else list
  }

  /** Adding keeps the list free of duplicates. */
  lemma {:induction false} AddKeepsDistinct(list: seq<string>, input: string)
    requires Distinct(list)
    ensures Distinct(AddIngredient(list, input))
  {
    var r := AddIngredient(list, input);
    if r != list {
      forall i, j | 0 <= i < j < |r| ensures r[i] != r[j] {
        if j == |list| {
          assert r[i] == list[i];
        }
      }
    }
  }

  /** After an add, the normalized value is listed (unless it was blank), so
      adding the same text again changes nothing. */
  lemma {:induction false} AddIdempotent(list: seq<string>, input: string)
    ensures !AllSpace(input) ==> Normalize(input) in AddIngredient(list, input)
    ensures AddIngredient(AddIngredient(list, input), input) == AddIngredient(list, input)
  {
    var r := AddIngredient(list, input);
    if !AllSpace(input) && Normalize(input) !in list {
      assert r[|list|] == Normalize(input);
    }
  }

  /** The list after `removeIngredient(value)`: every occurrence of `value` is dropped, the other
      entries keep their order and multiplicity. */
  function WithoutIngredient(list: seq<string>, value: string): (r: seq<string>)
    ensures value !in r
    ensures forall x :: x in list && x != value ==> x in r
    ensures forall x :: x != value ==> multiset(r)[x] == multiset(list)[x]
  {
    Lists.Filter(list, (x: string) => x != value)
  }

  /** Removing a value that is not listed leaves the list as it is. */
  lemma {:induction false} RemoveAbsent(list: seq<string>, value: string)
    requires value !in list
    ensures WithoutIngredient(list, value) == list
  {
    Lists.FilterKeepsAll(list, (x: string) => x != value);
  }

  /** Removing a value just added restores the list before the add. */
  lemma {:induction false} RemoveUndoesAdd(list: seq<string>, input: string)
    ensures WithoutIngredient(AddIngredient(list, input), Normalize(input))
         == WithoutIngredient(list, Normalize(input))
  {
    var keep := (x: string) => x != Normalize(input);
    if !AllSpace(input) && Normalize(input) !in list {
      Lists.FilterConcat(list, [Normalize(input)], keep);
      assert Lists.Filter([Normalize(input)], keep) == [];
    }
  }

  /** A key press adds the typed value: Enter or comma, with text that is not blank. */
  predicate TriggersAdd(key: string, input: string) {
    (key == "Enter" || key == ",") && Trim(input) != ""
  }

  /** The Add button is enabled exactly when the typed text is not blank, that
      is exactly when the value an add would try is not empty. */
  predicate AddButtonEnabled(input: string)
    ensures AddButtonEnabled(input) <==> !AllSpace(input)
    ensures AddButtonEnabled(input) <==> Normalize(input) != ""
  {
    Trim(input) != ""
  }

  /** A key press that triggers an add is one the enabled Add button could also
      have made, and the value it adds is not blank. */
  lemma {:induction false} KeyTriggerAddsValue(key: string, input: string, list: seq<string>)
    requires TriggersAdd(key, input)
    ensures AddButtonEnabled(input)
    ensures Normalize(input) != "" && Normalize(input) in AddIngredient(list, input)
  {
    AddIdempotent(list, input);
  }

  /** The text box, attached to the form whose list it edits. */
  class InputBox {
    const form: RecipeForm.FormState
    var inputValue: string

    constructor (form: RecipeForm.FormState)
      ensures this.form == form && inputValue == ""
    {
      this.form := form;
      inputValue := "";
    }

    /** The text box's `onChange`. */
    method HandleInputChange(value: string)
      modifies this
      ensures inputValue == value
    {
      inputValue := value;
    }

    /** `handleAddIngredient`: the form's list becomes AddIngredient of the typed
        text, and the text box is cleared whether or not anything was added. */
    method HandleAddIngredient()
      requires form.Valid()
      modifies this, form, form.store
      ensures form.Valid()
      ensures form.ingredients == AddIngredient(old(form.ingredients), old(inputValue))
      ensures inputValue == ""
      ensures form.cuisine == old(form.cuisine) && form.indianCuisineRegion == old(form.indianCuisineRegion)
      ensures form.mealType == old(form.mealType) && form.diet == old(form.diet)
      ensures form.specialRequests == old(form.specialRequests)
      ensures form.store.recipesBlob == old(form.store.recipesBlob)
    {
      ghost var added := AddIngredient(form.ingredients, inputValue);
      var newIngredient := Normalize(inputValue);
      if newIngredient != "" && newIngredient !in form.ingredients {
        assert added == form.ingredients + [newIngredient];
        form.SetIngredients(form.ingredients + [newIngredient]);
      } else {
        assert added == form.ingredients;
      }
      inputValue := "";
    }

    /** `handleKeyDown`: Enter or comma with a non-blank text adds it and stops
        the key's default action. Enter on a blank text is not stopped, so the
        browser submits the enclosing form: `submitted` is what the form's
        `handleSubmit` hands on. Any other key leaves the list and the text as
        they are; the character it types arrives through `onChange`. */
    method HandleKeyDown(key: string) returns (submitted: Option<FormData>)
      requires form.Valid()
      modifies this, form, form.store
      ensures form.Valid()
      ensures TriggersAdd(key, old(inputValue)) ==>
        form.ingredients == AddIngredient(old(form.ingredients), old(inputValue)) && inputValue == ""
      ensures !TriggersAdd(key, old(inputValue)) ==>
        form.ingredients == old(form.ingredients) && inputValue == old(inputValue)
      ensures key == "Enter" && !TriggersAdd(key, old(inputValue)) ==>
        (submitted.None? <==> form.ingredients == []) &&
        (submitted.Some? ==> submitted.value == FormData(form.ingredients, form.mealType, form.cuisine, form.diet,
                                                         Some(form.indianCuisineRegion), Some(form.specialRequests)))
      ensures key != "Enter" || TriggersAdd(key, old(inputValue)) ==> submitted == None
      ensures form.cuisine == old(form.cuisine) && form.indianCuisineRegion == old(form.indianCuisineRegion)
      ensures form.mealType == old(form.mealType) && form.diet == old(form.diet)
      ensures form.specialRequests == old(form.specialRequests)
      ensures form.store.recipesBlob == old(form.store.recipesBlob)
    {
      submitted := None;
      if (key == "Enter" || key == ",") && Trim(inputValue) != "" {
        HandleAddIngredient();
      } else if key == "Enter" {
        submitted := form.HandleSubmit();
      }
    }

    /** `removeIngredient`, the remove button of a chip. */
    method RemoveIngredient(value: string)
      requires form.Valid()
      modifies form, form.store
      ensures form.Valid()
      ensures form.ingredients == WithoutIngredient(old(form.ingredients), value)
      ensures form.cuisine == old(form.cuisine) && form.indianCuisineRegion == old(form.indianCuisineRegion)
      ensures form.mealType == old(form.mealType) && form.diet == old(form.diet)
      ensures form.specialRequests == old(form.specialRequests)
      ensures form.store.recipesBlob == old(form.store.recipesBlob)
    {
      form.SetIngredients(WithoutIngredient(form.ingredients, value));
    }
  }
}
