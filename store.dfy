/** The in-memory record store behind the recipe API (`fakeRecipes` in
    api/recipeApi.ts) and the six query functions over it. The store is a
    single mutable array shared by every call; the reads return views of its
    current contents and the three mutations update it in place. */
module RecipeStore {
  import opened RecipeTypes
  import opened RecipeQueries
  import opened RecipeIds
  import SeedData

  /** `splice(i, 1)`: the sequence without position `i`, the rest in order. */
  function RemoveAt(s: seq<Recipe>, i: nat): (r: seq<Recipe>)
    requires i < |s|
    ensures |r| == |s| - 1
    ensures forall j :: 0 <= j < i ==> r[j] == s[j]
    ensures forall j :: i <= j < |r| ==> r[j] == s[j + 1]
    ensures multiset(r) + multiset{s[i]} == multiset(s)
  {
    assert s == s[..i] + [s[i]] + s[i + 1..];
    s[..i] + s[i + 1..]
  }

  class RecipeStore {
    var recipes: seq<Recipe>

    /** The store as the module loads it: the three seeded recipes. */
    constructor ()
      ensures recipes == SeedData.SeedRecipes()
      ensures UniqueIds(recipes)
    {
      recipes := SeedData.SeedRecipes();
      SeedData.SeedIdsUnique();
    }

    method GetRecipes(page: Option<int>, limit: Option<int>) returns (response: RecipeListResponse)
      ensures response == List(recipes, page, limit)
      ensures response.total == |recipes|
    {
      response := List(recipes, page, limit);
    }

    method GetRecipe(id: int) returns (result: Result<Recipe>)
      ensures result == GetById(recipes, id)
      ensures result.Ok? <==> HasId(recipes, id)
    {
      var index := FindIndex(recipes, id);
      if index.None? {
        return Err(NotFound);
      }
      return Ok(recipes[index.value]);
    }

    method SearchRecipes(searchTerm: string) returns (filtered: seq<Recipe>)
      ensures filtered == Search(recipes, searchTerm)
      ensures forall r :: r in filtered <==> r in recipes && Matches(r, searchTerm)
    {
      filtered := Search(recipes, searchTerm);
    }

    /** createRecipe: the input plus a fresh id, pushed at the end. */
    method CreateRecipe(newRecipe: NewRecipe) returns (recipe: Recipe)
      modifies this
      ensures recipe == WithId(newRecipe, NextId(old(recipes)))
      ensures forall k :: 0 <= k < |old(recipes)| ==> old(recipes)[k].id < recipe.id
      ensures recipes == old(recipes) + [recipe]
      ensures GetById(recipes, recipe.id) == Ok(recipe)
      ensures UniqueIds(old(recipes)) ==> UniqueIds(recipes)
    {
      recipe := WithId(newRecipe, NextId(recipes));
      CreateThenGet(recipes, newRecipe);
      if UniqueIds(recipes) {
        CreateKeepsIdsUnique(recipes, newRecipe);
      }
      recipes := recipes + [recipe];
    }

    /** updateRecipe: overwrite the first record with the same id, or 404. */
    method UpdateRecipe(updatedRecipe: Recipe) returns (result: Result<Recipe>)
      modifies this
      ensures match FindIndex(old(recipes), updatedRecipe.id)
        case None => result == Err(NotFound) && recipes == old(recipes)
        case Some(i) => result == Ok(updatedRecipe) && recipes == old(recipes)[i := updatedRecipe]
      ensures result.Ok? <==> HasId(old(recipes), updatedRecipe.id)
      ensures |recipes| == |old(recipes)|
      ensures GetById(recipes, updatedRecipe.id) == result
      ensures UniqueIds(old(recipes)) ==> UniqueIds(recipes)
    {
      var index := FindIndex(recipes, updatedRecipe.id);
      if index.None? {
        return Err(NotFound);
      }
      UpdateThenGet(recipes, updatedRecipe);
      if UniqueIds(recipes) {
        ReplaceKeepsIdsUnique(recipes, index.value, updatedRecipe);
      }
      recipes := recipes[index.value := updatedRecipe];
      return Ok(updatedRecipe);
    }

    /** deleteRecipe: splice out the first record with the id, or 404. */
    method DeleteRecipe(id: int) returns (result: Result<DeleteResponse>)
      modifies this
      ensures match FindIndex(old(recipes), id)
        case None => result == Err(NotFound) && recipes == old(recipes)
        case Some(i) => result == Ok(DeleteResponse(true)) && recipes == RemoveAt(old(recipes), i)
      ensures result.Ok? <==> HasId(old(recipes), id)
      ensures result.Ok? ==> |recipes| == |old(recipes)| - 1
      ensures UniqueIds(old(recipes)) ==> UniqueIds(recipes) && GetById(recipes, id) == Err(NotFound)
    {
      var index := FindIndex(recipes, id);
      if index.None? {
        return Err(NotFound);
      }
      if UniqueIds(recipes) {
        RemoveKeepsIdsUnique(recipes, index.value);
        DeleteThenGet(recipes, id);
      }
      recipes := RemoveAt(recipes, index.value);
      return Ok(DeleteResponse(true));
    }
  }

  /** After a create, looking up the new id yields the created record. */
  lemma CreateThenGet(s: seq<Recipe>, n: NewRecipe)
    ensures GetById(s + [WithId(n, NextId(s))], NextId(s)) == Ok(WithId(n, NextId(s)))
  {
    var t := s + [WithId(n, NextId(s))];
    assert !HasId(s, NextId(s));
    assert t[|s|].id == NextId(s);
    assert forall k :: 0 <= k < |s| ==> t[k] == s[k];
  }

  /** After an update of an existing id, looking the id up yields the new record. */
  lemma UpdateThenGet(s: seq<Recipe>, u: Recipe)
    requires HasId(s, u.id)
    ensures GetById(s[FindIndex(s, u.id).value := u], u.id) == Ok(u)
  {
    var i := FindIndex(s, u.id).value;
    var t := s[i := u];
    assert FindIndex(t, u.id) == Some(i) by {
      assert forall j :: 0 <= j < i ==> t[j].id != u.id;
      assert t[i].id == u.id;
    }
  }

  /** After a delete in a store with unique ids, the id is gone. */
  lemma DeleteThenGet(s: seq<Recipe>, id: int)
    requires UniqueIds(s) && HasId(s, id)
    ensures GetById(RemoveAt(s, FindIndex(s, id).value), id) == Err(NotFound)
  {
  }
}
