/** The data shapes shared by the whole application. */
module Types {
  import opened Wrappers

  datatype Ingredient = Ingredient(name: string, quantity: string)

  /** A generated recipe. `recipeName` is the key under which recipes are saved
      and removed; `imageUrl` is absent when no image could be generated. */
  datatype Recipe = Recipe(
    recipeName: string,
    description: string,
    prepTime: string,
    cookTime: string,
    servings: string,
    ingredients: seq<Ingredient>,
    instructions: seq<string>,
    imageUrl: Option<string>)

  /** One generation request. The two optional fields are `undefined` when absent. */
  datatype FormData = FormData(
    ingredients: seq<string>,
    mealType: string,
    cuisine: string,
    diet: string,
    indianCuisineRegion: Option<string>,
    specialRequests: Option<string>)

  datatype ShoppingListItem = ShoppingListItem(name: string, quantity: string, purchaseSize: string)

  datatype ShoppingListCategory = ShoppingListCategory(category: string, items: seq<ShoppingListItem>)

  type ShoppingList = seq<ShoppingListCategory>

  /** JavaScript truthiness of an optional string: present and not empty. */
  predicate Truthy(s: Option<string>) {
    s.Some? && s.value != ""
  }

  /** The names of a list of recipes, as a set. */
  function NameSet(rs: seq<Recipe>): set<string> {
    set r | r in rs :: r.recipeName
  }

  /** No two recipes of the list share a name. */
  predicate NamesUnique(rs: seq<Recipe>) {
    forall i, j :: 0 <= i < j < |rs| ==> rs[i].recipeName != rs[j].recipeName
  }

  /** Some recipe of the list has the name `n` (`rs.some(r => r.recipeName === n)`). */
  predicate HasName(rs: seq<Recipe>, n: string) {
    exists r :: r in rs && r.recipeName == n
  }
}
