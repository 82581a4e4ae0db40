/** The records that the recipe API exchanges with its callers
    (api/recipeApi.ts, the `Recipe` and `RecipeListResponse` interfaces, the
    error object of the not-found path and the delete acknowledgement), plus
    the vocabulary every other module uses to talk about a store: the ids it
    holds and whether they are unique. */
module RecipeTypes {

  datatype Option<T> = None | Some(value: T) {
    /** The value, or `default` when absent (a destructuring default such as `page = 1`). */
    function GetOr(default: T): T {
      match this
      case Some(v) => v
      case None => default
    }
  }

  datatype Difficulty = Easy | Medium | Hard

  /** One dish. JavaScript numbers are modelled as unbounded integers. */
  datatype Recipe = Recipe(
    id: int,
    title: string,
    description: string,
    ingredients: seq<string>,
    instructions: seq<string>,
    prepTime: int,
    cookTime: int,
    servings: int,
    difficulty: Difficulty,
    imageUrl: Option<string>)

  /** `Omit<Recipe, 'id'>`: what a caller hands to createRecipe. */
  datatype NewRecipe = NewRecipe(
    title: string,
    description: string,
    ingredients: seq<string>,
    instructions: seq<string>,
    prepTime: int,
    cookTime: int,
    servings: int,
    difficulty: Difficulty,
    imageUrl: Option<string>)

  /** The `{ status, data }` error object of a failed query. */
  datatype ApiError = ApiError(status: int, data: string)

  const NotFound: ApiError := ApiError(404, "Recipe not found")

  /** A query function's outcome: `{ data }` or `{ error }`. */
  datatype Result<T> = Ok(value: T) | Err(error: ApiError)

  datatype RecipeListResponse = RecipeListResponse(recipes: seq<Recipe>, total: int, page: int, limit: int)

  datatype DeleteResponse = DeleteResponse(success: bool)

  /** `{ ...newRecipe, id }`: the input's fields plus the given id. */
  function WithId(n: NewRecipe, id: int): (r: Recipe)
    ensures r.id == id
    ensures WithoutId(r) == n
  {
    Recipe(id, n.title, n.description, n.ingredients, n.instructions,
           n.prepTime, n.cookTime, n.servings, n.difficulty, n.imageUrl)
  }

  /** The projection of a recipe onto `Omit<Recipe, 'id'>`. */
  function WithoutId(r: Recipe): NewRecipe {
    NewRecipe(r.title, r.description, r.ingredients, r.instructions,
              r.prepTime, r.cookTime, r.servings, r.difficulty, r.imageUrl)
  }

  /** `fakeRecipes.map(r => r.id)`. */
  function Ids(s: seq<Recipe>): (ids: seq<int>)
    ensures |ids| == |s|
    ensures forall i :: 0 <= i < |s| ==> ids[i] == s[i].id
  {
    seq(|s|, i requires 0 <= i < |s| => s[i].id)
  }

  predicate HasId(s: seq<Recipe>, id: int) {
    exists i :: 0 <= i < |s| && s[i].id == id
  }

  /** No two positions of the store carry the same id. */
  predicate UniqueIds(s: seq<Recipe>) {
    forall i, j :: 0 <= i < j < |s| ==> s[i].id != s[j].id
  }
}
