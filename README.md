# What2Cook in Dafny

What2Cook is a single-page recipe assistant. The user keeps a list of ingredients and picks a meal type, a cuisine (with a region when the cuisine is Indian), a diet and an optional special request. A language model then returns two recipes, and an image model illustrates each one. Recipes can be saved to the browser's local storage, shared as text over WhatsApp or e-mail, and shown on a screen of saved recipes.

This project models the logic behind that interface and proves what it guarantees. It has one module per source file, plus a few shared modules:

- **Wrappers** holds `Option`, for `null`/`undefined`, and `Result`, for a value or a thrown error.
- **Types** holds the shared records: `Recipe`, `FormData` and the shopping list.
- **Text** holds the JavaScript string operations the sources rely on:
  - `trim`;
  - `toLowerCase`;
  - `join`, with a one-character split as its inverse, used only to read the joined texts back as lines (the sources never split);
  - the `/\n\s*\n/g` → `"\n\n"` replacement;
  - decimal numerals.
- **Lists** holds `Array.prototype.filter`.

The per-file modules:

- **StorageService** (`services/storageService.ts`): local storage as a class `LocalStore` with two keys.
  - Each key holds a blob: `Missing`, `Corrupt` (text that does not parse) or `Valid(items)`.
  - Saving a recipe is first-write-wins by `recipeName`. Removing one filters by name.
- **IngredientInput** (`components/IngredientInput.tsx`): pure list operations, plus a class `InputBox` whose handlers edit the form's list and clear the typed text.
  - Adding normalises the text: trim, then lowercase.
  - Adding rejects blank and duplicate values.
- **RecipeForm** (`components/RecipeForm.tsx`): a class `FormState` holding the six fields.
  - Its invariant: every preference holds one of its options.
  - The region is 'Any' unless the cuisine is Indian.
  - The stored ingredient list is the current one.
- **GeminiService** (`services/geminiService.ts`): request validation, the prompt's instruction phrases, and assembly of the result from the two model calls. The model calls are given as functions.
- **App** (`App.tsx`): a class `AppState` holding the saved-name set, the loading/error/recipes status and the current screen.
  - The asynchronous generation handler is split at its `await` into `BeginGeneration` and `EndGeneration`.
- **RecipeList** (`components/RecipeList.tsx`): the choice among the skeleton, the error, the empty state and the cards.
- **SavedRecipes** (`components/SavedRecipes.tsx`): the saved-recipes screen, as a class holding its own copy of the stored list.
- **ShoppingListModal** (`components/ShoppingListModal.tsx`): the text of a shopping list.
  - It is proved equal to the join of a line list, and splitting it at line breaks gives that list back.
- **ShareModal** (`components/ShareModal.tsx`): the share text and the e-mail subject and body of a recipe.
  - Both texts are trimmed and have their blank lines collapsed.
  - For a recipe whose fields are single lines, each text is proved to be exactly the join of the lines read off its template.

## Model

| member | source | states |
|---|---|---|
| Lists.Filter | services/storageService.ts:27 | the kept elements are exactly the elements of the input that satisfy the predicate, each as often as in the input |
| Lists.FilterConcat | services/storageService.ts:27 | filtering a concatenation is the concatenation of the filtered parts, so relative order is preserved |
| Lists.FilterKeepsAll | components/IngredientInput.tsx:27 | a filter that keeps every element returns the list unchanged |
| Lists.FilterIdempotent | components/IngredientInput.tsx:27 | filtering twice by the same predicate is filtering once |
| Text.IsSpace | components/IngredientInput.tsx:12 | the whitespace that `trim` strips and `\s` matches, as a range test; its listing is stated by Text.IsSpaceListed |
| Text.IsSpaceListed | components/IngredientInput.tsx:12 | IsSpace holds exactly of tab, line feed, vertical tab, form feed, carriage return, space, no-break space, the byte order mark, the space separators and the line and paragraph separators |
| Text.Trim | components/IngredientInput.tsx:12 | the result has no whitespace at either end; it is the input with a whitespace prefix and a whitespace suffix removed; it is empty exactly when the input is all whitespace |
| Text.TrimFramed | components/ShareModal.tsx:51 | trimming whitespace, then a text with visible ends, then whitespace gives that text |
| Text.TrimFixed | components/IngredientInput.tsx:12 | a text with no whitespace at its ends is not changed by trim |
| Text.TrimIdempotent | components/IngredientInput.tsx:12 | trimming twice is trimming once |
| Text.LowerChar | components/IngredientInput.tsx:12 | capitals A-Z map to their lower-case letters; every other character is unchanged; whitespace stays whitespace |
| Text.ToLower | components/IngredientInput.tsx:12 | same length, each character lowercased |
| Text.ToLowerIdempotent | components/IngredientInput.tsx:12 | lowercasing twice is lowercasing once; lowercasing keeps visible ends and leaves no capital |
| Text.Join | components/ShoppingListModal.tsx:29-31 | `Array.prototype.join`: the empty list joins to "", a single element to itself |
| Text.JoinAppend | components/ShoppingListModal.tsx:28-31 | joining a concatenation is joining the parts with one separator between them |
| Text.SplitJoin | components/ShareModal.tsx:36-37 | splitting at line breaks the join of line-break-free lines gives those lines back |
| Text.ConcatHasPiece | services/geminiService.ts:87-95 | each piece of a concatenated template occurs in the result |
| Text.ConcatEndsWithLast | services/geminiService.ts:87-95 | a concatenated template ends with its last piece |
| Text.CollapseBlankLines | components/ShareModal.tsx:51 | the `/\n\s*\n/g` → "\n\n" replacement: never longer than its input, empty exactly for the empty input, and the first character kept when it is not a line break |
| Text.LastNewlineInSpace | components/ShareModal.tsx:51 | finds the line break at which the greedy `\s*` of `/\n\s*\n/` ends: a line break preceded only by whitespace, and the last such one |
| Text.CollapseBlankLinesNormal | components/ShareModal.tsx:51 | after the replacement, no two line breaks are separated by whitespace only, unless they are adjacent |
| Text.NoTripleNewline | components/ShareModal.tsx:51 | a collapsed text never holds three line breaks in a row |
| Text.CollapseBlankLinesFixes | components/ShareModal.tsx:51 | the replacement leaves an already collapsed text unchanged |
| Text.CollapseBlankLinesIdempotent | components/ShareModal.tsx:51 | replacing twice is replacing once |
| Text.CollapseNewlineFreePrefix | components/ShareModal.tsx:51 | a prefix without line breaks passes through the replacement unchanged |
| Text.CollapseNewlineFreeSuffix | components/ShareModal.tsx:51 | a suffix without line breaks that starts visibly passes through the replacement unchanged |
| Text.WellSpacedJoinCollapsed | components/ShareModal.tsx:51 | the join of single lines with no two empty lines adjacent and no whitespace-only line is already collapsed |
| Text.Tidy | components/ShareModal.tsx:51 | trim followed by the replacement leaves no whitespace at either end and no blank-line run, and is empty exactly when the text is all whitespace |
| Text.CollapseKeepsEnds | components/ShareModal.tsx:51 | the replacement keeps visible first and last characters |
| Text.TidyFramed | components/ShareModal.tsx:39-51 | a template that opens with a line break and closes with a line break and indentation keeps its visible first and last lines verbatim; only the middle is collapsed |
| Text.TidyFrame | components/ShareModal.tsx:39-51 | the tidied template starts with its head and ends with its tail, has no whitespace at its ends and no blank-line run |
| Text.TidyFrameOfLines | components/ShareModal.tsx:39-51 | a template whose text is the join of well-spaced lines tidies to exactly that join |
| Text.DecimalString | components/ShareModal.tsx:37 | the numeral is non-empty, all digits, with no leading zero except for 0 |
| Text.DecimalRoundTrip | components/ShareModal.tsx:37 | reading the numeral back gives the number |
| StorageService.WithRecipe | services/storageService.ts:16-23 | the list `saveRecipe` leaves: the old list is a prefix; it is unchanged when the name is stored, otherwise one longer with the recipe at the end |
| StorageService.WithoutRecipe | services/storageService.ts:25-28 | no recipe of the removed name is left; every other recipe stays, as often as before; nothing new appears |
| StorageService.WithRecipeKeepsNamesUnique | services/storageService.ts:16-23 | if the stored names are pairwise distinct before a save, they are after it |
| StorageService.WithRecipeIdempotent | services/storageService.ts:16-23 | saving again under a stored name changes nothing (first write wins) |
| StorageService.WithRecipeHasName | services/storageService.ts:16-23 | after a save the name is stored |
| StorageService.WithoutRecipeKeepsNamesUnique | services/storageService.ts:25-28 | removing keeps the stored names pairwise distinct |
| StorageService.WithoutAbsentRecipe | services/storageService.ts:25-28 | removing a name that is not stored leaves the list as it is |
| StorageService.RemoveUndoesSave | services/storageService.ts:16-28 | saving a new recipe and then removing its name restores the earlier list |
| StorageService.NameSetWithRecipe | services/storageService.ts:16-23 | the stored names after a save are the old names plus the saved one |
| StorageService.NameSetWithoutRecipe | services/storageService.ts:25-28 | the stored names after a removal are the old names minus the removed one |
| StorageService.LocalStore.constructor | services/storageService.ts:3-4 | a store with the given contents under its two keys |
| StorageService.LocalStore.GetSavedRecipes | services/storageService.ts:6-14 | the parsed list; the empty list when the key is missing or does not parse |
| StorageService.LocalStore.SaveRecipe | services/storageService.ts:16-23 | no write when the name is already stored, otherwise the stored list with the recipe appended; the ingredients key is untouched |
| StorageService.LocalStore.RemoveRecipe | services/storageService.ts:25-29 | always writes the stored list without that name, so a corrupt blob becomes an empty list; the ingredients key is untouched |
| StorageService.LocalStore.GetSavedIngredients | services/storageService.ts:31-39 | the parsed list, or null when the key is missing or does not parse |
| StorageService.LocalStore.SaveIngredients | services/storageService.ts:41-47 | stores the list as given; the recipes key is untouched |
| StorageService.SaveThenLoadIngredients | services/storageService.ts:31-47 | storing a list and reading it back returns the same list, order included, and leaves the recipes key as it was |
| IngredientInput.Normalize | components/IngredientInput.tsx:12 | the normalised text is empty exactly when the input is all whitespace; it has no whitespace at its ends and no capital |
| IngredientInput.NormalizeIdempotent | components/IngredientInput.tsx:12 | normalising twice is normalising once |
| IngredientInput.NormalizedIsFixed | components/IngredientInput.tsx:12 | a text without whitespace at its ends and without capitals is its own normal form |
| IngredientInput.AddIngredient | components/IngredientInput.tsx:11-17 | a blank or already listed value leaves the list unchanged; otherwise the normalised value is appended and the old list is a prefix |
| IngredientInput.AddKeepsDistinct | components/IngredientInput.tsx:13-14 | a duplicate-free list stays duplicate-free after any add |
| IngredientInput.AddIdempotent | components/IngredientInput.tsx:13-14 | after an add of a non-blank text its value is listed, and adding the same text again changes nothing |
| IngredientInput.WithoutIngredient | components/IngredientInput.tsx:26-28 | every occurrence of the value is gone; every other value keeps its multiplicity |
| IngredientInput.RemoveAbsent | components/IngredientInput.tsx:26-28 | removing an absent value changes nothing |
| IngredientInput.RemoveUndoesAdd | components/IngredientInput.tsx:11-28 | removing the value just added gives what removing it from the list before the add gives |
| IngredientInput.AddButtonEnabled | components/IngredientInput.tsx:62 | the Add button is enabled exactly when the text is not all whitespace, that is exactly when the normalised value is not empty |
| IngredientInput.KeyTriggerAddsValue | components/IngredientInput.tsx:19-24 | Enter or comma adds only when the trimmed text is not blank, exactly when the Add button is enabled, and then the value is listed |
| IngredientInput.InputBox.constructor | components/IngredientInput.tsx:9 | the text box starts empty |
| IngredientInput.InputBox.HandleInputChange | components/IngredientInput.tsx:54 | the text box holds the typed value |
| IngredientInput.InputBox.HandleAddIngredient | components/IngredientInput.tsx:11-17 | the list becomes AddIngredient of the typed text, the text box is cleared in every case, and the other fields and the saved recipes are unchanged |
| IngredientInput.InputBox.HandleKeyDown | components/IngredientInput.tsx:19-24 | Enter or comma with a non-blank text adds and clears, and submits nothing; Enter on a blank text submits the form as `handleSubmit` does (nothing for an empty list, otherwise the six fields); any other key leaves the list and the text as they are; the saved recipes are never touched |
| IngredientInput.InputBox.RemoveIngredient | components/IngredientInput.tsx:26-28 | the list becomes WithoutIngredient of the value; the other fields and the saved recipes are unchanged |
| RecipeForm.InitialIngredients | components/RecipeForm.tsx:30-35 | the stored list when it is present and non-empty, otherwise paneer, spinach, onion, garlic; never empty |
| RecipeForm.FormState.constructor | components/RecipeForm.tsx:30-44 | initial ingredients and preferences Dinner, Indian, Vegetarian, Any and ""; the list is stored at once |
| RecipeForm.FormState.SetIngredients | components/RecipeForm.tsx:42-44 | the new list is the current one and the stored one; nothing else changes |
| RecipeForm.FormState.SelectMealType | components/RecipeForm.tsx:71-77 | sets the meal type to one of its options |
| RecipeForm.FormState.HandleCuisineChange | components/RecipeForm.tsx:46-51 | sets the cuisine; any cuisine but Indian resets the region to Any, and Indian keeps it |
| RecipeForm.FormState.SelectRegion | components/RecipeForm.tsx:85-95 | sets the region, which can only be chosen while the cuisine is Indian |
| RecipeForm.FormState.SelectDiet | components/RecipeForm.tsx:96-102 | sets the diet to one of its options |
| RecipeForm.FormState.HandleSpecialRequestsChange | components/RecipeForm.tsx:110-117 | sets the special request to any text |
| RecipeForm.FormState.HandleSubmit | components/RecipeForm.tsx:53-60 | nothing is submitted for an empty list; otherwise the six current values, unchanged |
| GeminiService.DietPreference | services/geminiService.ts:74 | empty exactly for 'None'; otherwise "that is " followed by the diet |
| GeminiService.DietPreferenceInjective | services/geminiService.ts:74 | distinct diets give distinct phrases |
| GeminiService.CuisineInstruction | services/geminiService.ts:76-83 | empty exactly for 'Any'; the regional phrase exactly when the cuisine is Indian and a region other than Any is given: "The recipes MUST be authentic ", the region, then " Indian cuisine. " and the sentence forbidding recipes from other regions of India; otherwise "The recipes should be in the style of ", the cuisine, then " cuisine." |
| GeminiService.RegionIgnoredOutsideIndian | services/geminiService.ts:76-83 | outside Indian cuisine the region has no effect |
| GeminiService.NoRegionMeansStyle | services/geminiService.ts:78-82 | an absent, empty or 'Any' region gives the style phrase |
| GeminiService.SpecialRequestInstruction | services/geminiService.ts:85 | present exactly when the request is non-empty; it starts a new line and quotes the request verbatim |
| GeminiService.Prompt | services/geminiService.ts:87-95 | the prompt is the template's pieces in order; it opens with the fixed request for two recipes and closes with the fixed instructions on ingredients, recipe details and the JSON schema; what it carries is stated by GeminiService.PromptCarriesForm |
| GeminiService.PromptCarriesForm | services/geminiService.ts:76-95 | the prompt contains the meal type, the diet and cuisine phrases, the ingredients joined by ", ", and the special-request line; when a region of India is chosen it names the region and forbids recipes from other regions of India |
| GeminiService.PromptCarriesInstructions | services/geminiService.ts:92-94 | whatever the form, the prompt asks to use mainly the supplied ingredients, allowing common pantry staples, and to follow the JSON schema |
| GeminiService.ImagePrompt | services/geminiService.ts:118 | the image prompt quotes the recipe name and contains the description |
| GeminiService.ImageUrl | services/geminiService.ts:129-135 | a JPEG base64 data URL of the bytes, or undefined when the image call failed |
| GeminiService.AttachImages | services/geminiService.ts:115-138 | same length and order as the parsed recipes; every other field unchanged; each imageUrl is the data URL of that recipe's own image outcome, or undefined |
| GeminiService.ImageFailureIsLocal | services/geminiService.ts:115-138 | one recipe's image outcome decides that recipe alone |
| GeminiService.GenerateRecipes | services/geminiService.ts:61-146 | the missing key is reported first, then empty ingredients; any text-call or parse failure becomes "Failed to generate recipes from the API."; a null or empty parse gives null; otherwise exactly AttachImages of the parsed recipes |
| GeminiService.ValidationPrecedesCalls | services/geminiService.ts:62-72 | the validation errors do not depend on the model calls |
| GeminiService.ImagesNeverFailGeneration | services/geminiService.ts:115-140 | image failures never fail the request nor change the recipes other than their imageUrl |
| RecipeList.Cards | components/RecipeList.tsx:82-90 | one card per recipe, in order, marked saved exactly when its name is in the saved set |
| RecipeList.Select | components/RecipeList.tsx:63-94 | the skeleton while loading with no recipes (even with an error), then a non-empty error, then the empty state for null recipes, then the cards; exactly one view |
| RecipeList.SavedNamesOnlyMarkCards | components/RecipeList.tsx:86 | changing the saved set changes only the saved mark of the cards whose names it affects |
| App.AppState.constructor | App.tsx:12-24 | home screen, nothing loading or shown, and the saved-name set equal to the stored names |
| App.AppState.HandleSaveRecipe | App.tsx:26-29 | stores the recipe and adds its name to the set; everything else unchanged; the set still mirrors storage |
| App.AppState.HandleRemoveRecipe | App.tsx:31-38 | removes the name from storage and from the set; everything else unchanged |
| App.AppState.BeginGeneration | App.tsx:40-43 | loading, error and recipes cleared, so the skeleton is shown |
| App.AppState.EndGeneration | App.tsx:45-61 | a non-empty result is shown; null or empty sets the no-recipes message; a thrown Error sets its message, anything else the generic message; loading ends in every case |
| App.AppState.HandleGenerateRecipes | App.tsx:40-62 | after one request the state shows the service's recipes or its error message |
| App.AppState.ShowSavedRecipes | App.tsx:64-68 | the saved screen, with recipes and error cleared |
| App.AppState.ShowHome | App.tsx:94 | back to the home screen, everything else as it was |
| App.ResultAreaOfValidState | App.tsx:83-90 | in a consistent state the cards are shown exactly when there are recipes, never an empty grid, and the skeleton exactly while loading |
| App.SubmittedFormsPassIngredientCheck | components/RecipeForm.tsx:55-59 | a form submission never meets the service's empty-ingredients error |
| SavedRecipes.Display | components/SavedRecipes.tsx:35-54 | the empty message exactly for no recipes; otherwise one card per recipe, in order, shown as saved and without the save action |
| SavedRecipes.SavedRecipesPanel.constructor | components/SavedRecipes.tsx:12-16 | the local list is the stored list |
| SavedRecipes.SavedRecipesPanel.HandleRemove | components/SavedRecipes.tsx:18-21 | the same name is removed in the application, and the local list drops it and keeps the others in order |
| SavedRecipes.RemovedRecipeLeavesScreen | components/SavedRecipes.tsx:18-21 | after a removal no card shows the name, and every other recipe is still shown |
| ShoppingListModal.ItemLines | components/ShoppingListModal.tsx:29 | one line per item, in order, "- name: quantity (buy: size)" |
| ShoppingListModal.CategoryBlock | components/ShoppingListModal.tsx:29-30 | the block opens with the starred category and a line break; a category without items is that alone |
| ShoppingListModal.CategoryBlocks | components/ShoppingListModal.tsx:28-31 | one block per category, in order |
| ShoppingListModal.FormatListForSharing | components/ShoppingListModal.tsx:27-32 | the empty list gives ""; one category gives its block |
| ShoppingListModal.FormatConcat | components/ShoppingListModal.tsx:28-31 | two lists format to their texts with one empty line between them |
| ShoppingListModal.FormatAsLines | components/ShoppingListModal.tsx:27-32 | the text is the join of the block lines, with one empty line between blocks |
| ShoppingListModal.SplitFormattedList | components/ShoppingListModal.tsx:27-32 | for single-line fields, splitting the text at line breaks gives the category lines, the item lines in order and the empty lines between blocks |
| ShareModal.IngredientLines | components/ShareModal.tsx:36 | one line per ingredient, in order: bullet, quantity, a space, name |
| ShareModal.InstructionLines | components/ShareModal.tsx:37 | one line per step |
| ShareModal.InstructionNumbering | components/ShareModal.tsx:37 | line i is the numeral of i + 1, ". ", and step i verbatim: steps are numbered consecutively from 1 |
| ShareModal.FormatRecipeForSharing | components/ShareModal.tsx:35-52 | opens with the starred name, closes with "Shared from What2Cook!", has no whitespace at either end and no blank-line run |
| ShareModal.EmailSubject | components/ShareModal.tsx:88 | "Check out this recipe: " followed by the recipe name |
| ShareModal.EmailSubjectNamesRecipe | components/ShareModal.tsx:88 | two recipes get the same subject exactly when they have the same name |
| ShareModal.EmailBody | components/ShareModal.tsx:67-86 | opens with "Hello!", closes with "Shared from What2Cook.", has no whitespace at either end and no blank-line run |
| ShareModal.ShareLinesWellSpaced | components/ShareModal.tsx:39-50 | the lines of the share template are single lines, never whitespace-only, never two empty lines in a row |
| ShareModal.EmailLinesWellSpaced | components/ShareModal.tsx:67-85 | the same for the lines of the e-mail template |
| ShareModal.ShareTextLines | components/ShareModal.tsx:35-52 | for single-line fields, a visible description and at least one ingredient and step, the share text is exactly its lines joined by line breaks, and splitting it gives them back |
| ShareModal.EmailBodyLines | components/ShareModal.tsx:64-86 | the same for the e-mail body: greeting, intro, description, ruled sections with "• " ingredients and numbered steps, closing, signature |

## Left out

- Rendering is not modelled: JSX, CSS, icons and animations, and all of Header, Footer, OptionSelector and RecipeCard, which are presentation only. The theme hook in App.tsx is not part of this model.
- The Gemini SDK calls and the response-schema literal (services/geminiService.ts:5-58, 98-105, 119-127) are foreign library code. They are parameters: the text call and `JSON.parse` become one function returning a failure or the parsed value, and the image call becomes a function of the recipe's position and prompt.
- The API key is a boolean "configured" input; its value is never read.
- `JSON.parse`/`JSON.stringify` and the `localStorage` API are modelled by what they yield: a blob that is missing, corrupt or a valid list.
- A `setItem` that fails on quota is not modelled.
  - `saveIngredients` catches that failure and logs it.
  - `saveRecipe` and `removeRecipe` would throw.
- Promise.all over the image calls is modelled as a map by position: concurrency and completion order do not change the result.
- App.AppState.HandleGenerateRecipes: runs the two halves with nothing in between. Another handler can run while generation waits; BeginGeneration and EndGeneration are exposed so that such an interleaving can be composed, but none is analysed.
- Clipboard writes, `window.open`, the `mailto:` redirect, `encodeURIComponent`, `alert`, `console.error` and the two-second reset of the copied flag are browser I/O and timers, so they are not modelled. Only the texts handed to them are.
- The recipe form's submit button is disabled while loading (components/RecipeForm.tsx:17). That guard is not modelled.
- Text.ToLower: lowercases only the ASCII letters A-Z. JavaScript's `toLowerCase` also maps capitals of other scripts, and a few characters to several characters; Unicode case tables are out of scope.
- Text.LowerChar: the same ASCII-only lowering, one character at a time.
- IngredientInput.Normalize: inherits the ASCII-only lowering, so "Épinards" and "épinards" are two different values here where `toLowerCase` makes them one; AddIngredient and the InputBox handlers inherit this too.
- IngredientInput.InputBox.HandleKeyDown: Enter on a blank text submits the form even while a generation is loading; the browser skips that implicit submission while the submit button is disabled (components/RecipeForm.tsx:17), which is not modelled. The comma a blank text receives is typed through `onChange` (HandleInputChange), not by this method.
- Strings are sequences of Unicode code points, not UTF-16 code units. Lengths of texts with characters outside the Basic Multilingual Plane differ from JavaScript's `length`, but no property here depends on them.
- Text.Join: its own contract states only the empty and single-element cases. The general shape is stated by Text.JoinAppend and the line lemmas.
- ShareModal.InstructionLines: its own contract states only the count. The content of each line is stated by ShareModal.InstructionNumbering.
- ShareModal.ShareTextLines: requires single-line fields, a visible description and at least one ingredient and one step. For other recipes, only the general guarantees of FormatRecipeForSharing are stated: visible ends and no blank-line run.
- ShareModal.EmailBodyLines: requires single-line fields, a visible description and at least one ingredient and one step. For other recipes, only the general guarantees of EmailBody are stated: visible ends and no blank-line run.
- No code in these sources produces a shopping list; only its formatting is modelled, and no aggregation or unit arithmetic is invented.
- Where the code and the written design differ, the model follows the code:
  - `generateRecipes` replaces the message of every text-call or parse failure with "Failed to generate recipes from the API.".
  - The image calls run together through Promise.all, with no delay between requests.
