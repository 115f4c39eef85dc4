/**
 * Recipe generation (services/geminiService.ts): validation of the request,
 * composition of the text prompt from the form, and assembly of the result from
 * what the language model returns.
 *
 * The two model calls are not part of this model. They are parameters:
 *   - `text` maps the prompt to the outcome of the text call followed by
 *     `JSON.parse` (failure, or the parsed value: null or an array of recipes);
 *   - `image` maps a recipe's position and its image prompt to the outcome of
 *     the image call (failure, or the base64 bytes of the first image).
 * Whether the API key is configured is a boolean parameter.
 */
module GeminiService {
  import opened Wrappers
  import opened Types
  import opened Text

  const ApiKeyMissingMessage: string :=
    "API_KEY environment variable not set. Please configure it in your deployment environment."
  const NoIngredientsMessage: string := "Please provide at least one ingredient."
  const GenerationFailedMessage: string := "Failed to generate recipes from the API."
  const ImageUrlPrefix: string := "data:image/jpeg;base64,"

  const DietLead: string := "that is "
  const RegionalLead: string := "The recipes MUST be authentic "
  const OtherRegionsBan: string := "Do not suggest recipes from other regions of India."
  const RegionalTail: string := " Indian cuisine. " + OtherRegionsBan
  const StyleLead: string := "The recipes should be in the style of "
  const StyleTail: string := " cuisine."
  const SpecialLead: string := ['\n'] + "IMPORTANT: The user has a special request: \""
  const SpecialTail: string := "\". Please adhere to it."

  // ---------------------------------------------------------------------------
  // Instruction phrases
  // ---------------------------------------------------------------------------

  /** The diet phrase: empty for 'None', otherwise a phrase naming the diet. */
  function DietPreference(diet: string): (r: string)
    ensures r == "" <==> diet == "None"
    ensures diet != "None" ==>
      IsInfix(diet, r) && |r| == |DietLead| + |diet| &&
      r[..|DietLead|] == DietLead && r[|DietLead|..] == diet
  {
    if diet == "None" then ""
    else
      var r := DietLead + diet;
      InfixOfConcat(DietLead, diet, "");
      assert DietLead + diet + "" == r;
      r
  }

  /** Distinct diets give distinct phrases: the phrase determines the diet. */
  lemma {:induction false} DietPreferenceInjective(d1: string, d2: string)
    requires DietPreference(d1) == DietPreference(d2)
    ensures d1 == d2
  {
    if d1 != "None" && d2 != "None" {
      assert d1 == DietPreference(d1)[|DietLead|..];
      assert d2 == DietPreference(d2)[|DietLead|..];
    }
  }

  /** The form asks for recipes of one region of India: cuisine 'Indian' with a
      region that is present, non-empty and not 'Any'. */
  predicate RegionChosen(cuisine: string, region: Option<string>) {
    cuisine == "Indian" && Truthy(region) && region.value != "Any"
  }

  /** The phrase insists on one region (rather than asking for a cuisine's style). */
  predicate IsRegionalInstruction(r: string) {
    |r| >= |RegionalLead| && r[..|RegionalLead|] == RegionalLead
  }

  /** The cuisine instruction: empty for 'Any' whatever the region; the regional
      phrase when a region of India is chosen; the style phrase otherwise. */
  function CuisineInstruction(cuisine: string, region: Option<string>): (r: string)
    ensures r == "" <==> cuisine == "Any"
    ensures cuisine != "Any" ==> (IsRegionalInstruction(r) <==> RegionChosen(cuisine, region))
    ensures cuisine != "Any" && RegionChosen(cuisine, region) ==>
      IsInfix(region.value, r) && IsInfix(OtherRegionsBan, r) &&
      |r| == |RegionalLead| + |region.value| + |RegionalTail| &&
      r[|RegionalLead|..|r| - |RegionalTail|] == region.value &&
      r[|r| - |RegionalTail|..] == RegionalTail
    ensures cuisine != "Any" && !RegionChosen(cuisine, region) ==>
      IsInfix(cuisine, r) &&
      |r| == |StyleLead| + |cuisine| + |StyleTail| &&
      r[..|StyleLead|] == StyleLead &&
      r[|StyleLead|..|r| - |StyleTail|] == cuisine &&
      r[|r| - |StyleTail|..] == StyleTail
  {
    if cuisine == "Any" then ""
    else if RegionChosen(cuisine, region) then
      var r := RegionalLead + region.value + RegionalTail;
      FramedParts(RegionalLead, region.value, RegionalTail);
      RegionalTailBansOtherRegions();
      InfixTransitive(OtherRegionsBan, RegionalTail, r);
      r
    else
      var r := StyleLead + cuisine + StyleTail;
      FramedParts(StyleLead, cuisine, StyleTail);
      assert r[..|RegionalLead|] != RegionalLead by {
        assert r[12] == 's' && RegionalLead[12] == 'M';
      }
      r
  }

  lemma {:induction false} RegionalTailBansOtherRegions()
    ensures IsInfix(OtherRegionsBan, RegionalTail)
  {
    InfixOfConcat(" Indian cuisine. ", OtherRegionsBan, "");
    assert " Indian cuisine. " + OtherRegionsBan + "" == RegionalTail;
  }

  /** Outside Indian cuisine the region has no effect on the instruction. */
  lemma {:induction false} RegionIgnoredOutsideIndian(cuisine: string, region1: Option<string>, region2: Option<string>)
    requires cuisine != "Indian"
    ensures CuisineInstruction(cuisine, region1) == CuisineInstruction(cuisine, region2)
  {
  }

  /** An absent region, an empty region and the region 'Any' all ask for the
      style of the cuisine alone. */
  lemma {:induction false} NoRegionMeansStyle(cuisine: string)
    requires cuisine != "Any"
    ensures CuisineInstruction(cuisine, None) == CuisineInstruction(cuisine, Some("Any"))
    ensures CuisineInstruction(cuisine, Some("")) == CuisineInstruction(cuisine, Some("Any"))
    ensures !IsRegionalInstruction(CuisineInstruction(cuisine, None))
  {
  }

  /** The special-request line: present exactly when the request is non-empty,
      and quoting the request verbatim. */
  function SpecialRequestInstruction(specialRequests: Option<string>): (r: string)
    ensures r == "" <==> !Truthy(specialRequests)
    ensures Truthy(specialRequests) ==>
      r[0] == '\n' && IsInfix("\"" + specialRequests.value + "\"", r)
  {
    if Truthy(specialRequests) then
      var q := "\"" + specialRequests.value + "\"";
      var r := SpecialLead + specialRequests.value + SpecialTail;
      var lead := SpecialLead[..|SpecialLead| - 1];
      assert SpecialLead == lead + "\"";
      assert SpecialTail == "\"" + SpecialTail[1..];
      assert r == lead + q + SpecialTail[1..];
      InfixOfConcat(lead, q, SpecialTail[1..]);
      assert r[0] == SpecialLead[0];
      r
    else ""
  }

  // ---------------------------------------------------------------------------
  // Prompts
  // ---------------------------------------------------------------------------

  const PromptHead: string := "\n    Generate 2 creative and delicious recipes for a "
  const PromptAfterDiet: string := ".\n    "
  const PromptIngredientsLead: string := "\n    The user has the following ingredients available: "
  const PromptAfterIngredients: string := ".\n    "
  const PromptIndent: string := "\n    "
  /** Use mainly the supplied ingredients; common pantry staples are allowed. */
  const PantryInstruction: string :=
    "The recipes should primarily use these ingredients, but you can include a few common pantry staples if necessary (like oil, salt, pepper, spices)."
  const DetailsInstruction: string :=
    "For each recipe, provide a name, a short description, prep time, cook time, servings, a list of ingredients with quantities, and step-by-step instructions."
  /** Answer in the JSON schema of the request. */
  const SchemaInstruction: string := "Ensure the final output strictly adheres to the provided JSON schema."
  const PromptTail: string :=
    PromptIndent + PantryInstruction + PromptIndent + DetailsInstruction
    + PromptIndent + SchemaInstruction + "\n  "

  /** The pieces of the text prompt, in the order of the source's template literal. */
  function PromptPieces(form: FormData): seq<string> {
    [ PromptHead, form.mealType, " ", DietPreference(form.diet), PromptAfterDiet,
      CuisineInstruction(form.cuisine, form.indianCuisineRegion),
      PromptIngredientsLead, Join(form.ingredients, ", "), PromptAfterIngredients,
      SpecialRequestInstruction(form.specialRequests),
      PromptTail ]
  }

  /** The text prompt of a request: the template's pieces in order, so it opens
      with the fixed request for two recipes and closes with the fixed
      instructions on ingredients, recipe details and the JSON schema. */
  function Prompt(form: FormData): (r: string)
    ensures |r| >= |PromptHead| && r[..|PromptHead|] == PromptHead
    ensures |r| >= |PromptTail| && r[|r| - |PromptTail|..] == PromptTail
  {
    var pieces := PromptPieces(form);
    ConcatEndsWithLast(pieces);
    Concat(pieces)
  }

  /** Whatever the form, the prompt asks to use mainly the supplied ingredients,
      allowing common pantry staples, and to answer in the JSON schema. */
  lemma {:induction false} PromptCarriesInstructions(form: FormData)
    ensures IsInfix(PantryInstruction, Prompt(form)) && IsInfix(SchemaInstruction, Prompt(form))
  {
    ClosedByTail(Prompt(form));
  }

  /** A text that ends with the closing text holds its instructions. */
  lemma {:induction false} ClosedByTail(r: string)
    requires |r| >= |PromptTail| && r[|r| - |PromptTail|..] == PromptTail
    ensures IsInfix(PantryInstruction, r) && IsInfix(SchemaInstruction, r)
  {
    assert r[|r| - |PromptTail|..|r|] == PromptTail;
    TailCarriesInstructions();
    InfixTransitive(PantryInstruction, PromptTail, r);
    InfixTransitive(SchemaInstruction, PromptTail, r);
  }

  /** The fixed closing instructions stand in the prompt's closing text. */
  lemma {:induction false} TailCarriesInstructions()
    ensures IsInfix(PantryInstruction, PromptTail) && IsInfix(SchemaInstruction, PromptTail)
  {
    InfixOfConcat(PromptIndent, PantryInstruction, PromptIndent + DetailsInstruction + PromptIndent + SchemaInstruction + "\n  ");
    assert PromptIndent + PantryInstruction + (PromptIndent + DetailsInstruction + PromptIndent + SchemaInstruction + "\n  ") == PromptTail;
    InfixOfConcat(PromptIndent + PantryInstruction + PromptIndent + DetailsInstruction + PromptIndent, SchemaInstruction, "\n  ");
    assert PromptIndent + PantryInstruction + PromptIndent + DetailsInstruction + PromptIndent + SchemaInstruction + "\n  " == PromptTail;
  }

  /** The prompt carries every choice of the form: the meal type, the diet and
      cuisine phrases, the ingredients in order separated by ", ", and the
      special-request line. */
  lemma {:induction false} PromptCarriesForm(form: FormData)
    ensures IsInfix(form.mealType, Prompt(form))
    ensures IsInfix(DietPreference(form.diet), Prompt(form))
    ensures IsInfix(CuisineInstruction(form.cuisine, form.indianCuisineRegion), Prompt(form))
    ensures IsInfix(Join(form.ingredients, ", "), Prompt(form))
    ensures IsInfix(SpecialRequestInstruction(form.specialRequests), Prompt(form))
    ensures RegionChosen(form.cuisine, form.indianCuisineRegion) ==>
      IsInfix(form.indianCuisineRegion.value, Prompt(form)) && IsInfix(OtherRegionsBan, Prompt(form))
  {
    OddPieces(PromptPieces(form));
    var cuisine := CuisineInstruction(form.cuisine, form.indianCuisineRegion);
    if RegionChosen(form.cuisine, form.indianCuisineRegion) {
      InfixTransitive(form.indianCuisineRegion.value, cuisine, Prompt(form));
      InfixTransitive(OtherRegionsBan, cuisine, Prompt(form));
    }
  }

  lemma {:induction false} OddPieces(pieces: seq<string>)
    requires |pieces| == 11
    ensures IsInfix(pieces[1], Concat(pieces)) && IsInfix(pieces[3], Concat(pieces))
    ensures IsInfix(pieces[5], Concat(pieces)) && IsInfix(pieces[7], Concat(pieces))
    ensures IsInfix(pieces[9], Concat(pieces))
  {
    ConcatHasPiece(pieces, 1);
    ConcatHasPiece(pieces, 3);
    ConcatHasPiece(pieces, 5);
    ConcatHasPiece(pieces, 7);
    ConcatHasPiece(pieces, 9);
  }

  const ImagePromptLead: string := "A delicious, professional food photograph of "
  const ImagePromptTail: string := ". The image should be vibrant, appetizing, and well-lit with a clean background."

  /** The image prompt for one recipe: it quotes the name and repeats the description. */
  function ImagePrompt(recipe: Recipe): (r: string)
    ensures IsInfix("\"" + recipe.recipeName + "\"", r)
    ensures IsInfix(recipe.description, r)
  {
    var q := "\"" + recipe.recipeName + "\"";
    SecondAndFourthPieces(ImagePromptLead, q, ". ", recipe.description, ImagePromptTail);
    Concat([ImagePromptLead, q, ". ", recipe.description, ImagePromptTail])
  }

  lemma {:induction false} SecondAndFourthPieces(a: string, b: string, c: string, d: string, e: string)
    ensures IsInfix(b, Concat([a, b, c, d, e])) && IsInfix(d, Concat([a, b, c, d, e]))
  {
    ConcatHasPiece([a, b, c, d, e], 1);
    ConcatHasPiece([a, b, c, d, e], 3);
  }

  // ---------------------------------------------------------------------------
  // Result assembly
  // ---------------------------------------------------------------------------

  /** Outcome of the text call and of parsing its trimmed text. */
  datatype TextOutcome =
    | TextFailed
    | Parsed(data: Option<seq<Recipe>>)

  /** The `imageUrl` of a recipe: a JPEG data URL of the bytes, or undefined
      when the image call failed. */
  function ImageUrl(bytes: Option<string>): (r: Option<string>)
    ensures r.Some? <==> bytes.Some?
    ensures bytes.Some? ==>
      |r.value| == |ImageUrlPrefix| + |bytes.value| &&
      r.value[..|ImageUrlPrefix|] == ImageUrlPrefix && r.value[|ImageUrlPrefix|..] == bytes.value
  {
    match bytes
    case None => None
    case Some(b) => Some(ImageUrlPrefix + b)
  }

  /** The parsed recipes, each with the image of its own position attached
      (the `Promise.all` over `recipesData.map`). */
  function AttachImages(data: seq<Recipe>, image: (nat, string) -> Option<string>): (r: seq<Recipe>)
    ensures |r| == |data|
    ensures forall i :: 0 <= i < |r| ==>
      r[i].(imageUrl := None) == data[i].(imageUrl := None)
    ensures forall i :: 0 <= i < |r| ==>
      (r[i].imageUrl.Some? <==> image(i, ImagePrompt(data[i])).Some?)
    ensures forall i :: 0 <= i < |r| && r[i].imageUrl.Some? ==>
      |r[i].imageUrl.value| >= |ImageUrlPrefix| &&
      r[i].imageUrl.value[..|ImageUrlPrefix|] == ImageUrlPrefix &&
      r[i].imageUrl.value[|ImageUrlPrefix|..] == image(i, ImagePrompt(data[i])).value
  {
    seq(|data|, i requires 0 <= i < |data| => data[i].(imageUrl := ImageUrl(image(i, ImagePrompt(data[i])))))
  }

  /** One recipe's image outcome decides that recipe alone: two image oracles
      that agree at position i give the same recipe at position i, whatever they
      do elsewhere. */
  lemma {:induction false} ImageFailureIsLocal(data: seq<Recipe>, image1: (nat, string) -> Option<string>,
                            image2: (nat, string) -> Option<string>, i: nat)
    requires i < |data|
    requires image1(i, ImagePrompt(data[i])) == image2(i, ImagePrompt(data[i]))
    ensures AttachImages(data, image1)[i] == AttachImages(data, image2)[i]
  {
  }

  /** `generateRecipes`: Failure carries the message of the thrown Error; Success(None)
      is the null result; Success(Some(rs)) the recipes with their images. */
  function GenerateRecipes(apiKeyConfigured: bool, form: FormData,
                           text: string -> TextOutcome,
                           image: (nat, string) -> Option<string>): (r: Result<Option<seq<Recipe>>, string>)
    ensures !apiKeyConfigured ==> r == Failure(ApiKeyMissingMessage)
    ensures apiKeyConfigured && form.ingredients == [] ==> r == Failure(NoIngredientsMessage)
    ensures r.Failure? ==>
      r.error == ApiKeyMissingMessage || r.error == NoIngredientsMessage || r.error == GenerationFailedMessage
    ensures r == Failure(GenerationFailedMessage) <==>
      apiKeyConfigured && form.ingredients != [] && text(Prompt(form)).TextFailed?
    ensures r == Success(None) <==>
      apiKeyConfigured && form.ingredients != [] && text(Prompt(form)).Parsed? &&
      (text(Prompt(form)).data == None || text(Prompt(form)).data == Some([]))
    ensures r.Success? && r.value.Some? ==>
      text(Prompt(form)).Parsed? && text(Prompt(form)).data.Some? &&
      |r.value.value| == |text(Prompt(form)).data.value| > 0 &&
      r.value.value == AttachImages(text(Prompt(form)).data.value, image)
  {
    if !apiKeyConfigured then Failure(ApiKeyMissingMessage)
    else if |form.ingredients| == 0 then Failure(NoIngredientsMessage)
    else
      match text(Prompt(form))
      case TextFailed => Failure(GenerationFailedMessage)
      case Parsed(data) =>
        if data.None? || |data.value| == 0 then Success(None)
        else Success(Some(AttachImages(data.value, image)))
  }

  /** Validation happens before any call: a missing key or an empty ingredient list
      gives the same error whatever the model would have answered. */
  lemma {:induction false} ValidationPrecedesCalls(apiKeyConfigured: bool, form: FormData,
                                text1: string -> TextOutcome, image1: (nat, string) -> Option<string>,
                                text2: string -> TextOutcome, image2: (nat, string) -> Option<string>)
    requires !apiKeyConfigured || form.ingredients == []
    ensures GenerateRecipes(apiKeyConfigured, form, text1, image1)
         == GenerateRecipes(apiKeyConfigured, form, text2, image2)
  {
  }

  /** Image failures never fail the request: when the text call succeeds with
      recipes, the result is the same list of recipes whatever the image calls do,
      up to their `imageUrl`. */
  lemma {:induction false} ImagesNeverFailGeneration(form: FormData, text: string -> TextOutcome,
                                  image1: (nat, string) -> Option<string>,
                                  image2: (nat, string) -> Option<string>)
    requires text(Prompt(form)).Parsed?
    ensures var r1 := GenerateRecipes(true, form, text, image1);
            var r2 := GenerateRecipes(true, form, text, image2);
            r1.Success? == r2.Success? && (r1.Success? ==> r1.value.Some? == r2.value.Some?)
    ensures var r1 := GenerateRecipes(true, form, text, image1);
            r1.Success? && r1.value.Some? ==>
              forall i :: 0 <= i < |r1.value.value| ==>
                r1.value.value[i].(imageUrl := None) == text(Prompt(form)).data.value[i].(imageUrl := None)
  {
  }
}
