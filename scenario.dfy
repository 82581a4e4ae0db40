/** The seeded store put through the operations: paging, searching and a
    delete followed by a listing. */
module Scenario {
  import opened RecipeTypes
  import opened Text
  import opened RecipeQueries
  import opened RecipeStore
  import opened SeedData
  import opened RecipeIds

  /** Pages of two over the three seeded recipes: ids [1, 2], then [3]. */
  lemma SeedPages()
    ensures List(SeedRecipes(), Some(1), Some(2)) == RecipeListResponse([Carbonara(), Cookies()], 3, 1, 2)
    ensures List(SeedRecipes(), Some(2), Some(2)) == RecipeListResponse([Wellington()], 3, 2, 2)
    ensures List(SeedRecipes(), None, None) == RecipeListResponse(SeedRecipes(), 3, 1, 10)
  {
    var s := SeedRecipes();
    assert s[0..2] == [Carbonara(), Cookies()];
    assert s[2..3] == [Wellington()];
    assert s[0..3] == s;
  }

  /** A text without the letter k, in either case, cannot contain "cookie". */
  lemma NoLetterK(s: string)
    requires 'k' !in s && 'K' !in s
    ensures !Includes(Lower(s), Lower("cookie"))
  {
    LowerExcludes(s, 'k');
    assert Lower("cookie")[3] == 'k';
    IncludesNeedsEveryChar(Lower(s), Lower("cookie"), 'k');
  }

  /** Letter absence carries over a concatenation, so a long text is checked
      one short piece at a time. */
  lemma LacksKInPieces(s: string, a: string, b: string)
    requires s == a + b
    requires 'k' !in a && 'K' !in a && 'k' !in b && 'K' !in b
    ensures 'k' !in s && 'K' !in s
  {
  }

  lemma CookiesMatch()
    ensures Matches(Cookies(), "cookie")
  {
    assert Lower("cookie") == "cookie";
    assert Lower(CookiesTitle)[15..21] == "cookie";
    assert OccursAt(Lower(CookiesTitle), Lower("cookie"), 15);
    IncludesIffOccurs(Lower(CookiesTitle), Lower("cookie"));
  }

  lemma CarbonaraTitleLacksK()
    ensures 'k' !in CarbonaraTitle && 'K' !in CarbonaraTitle
  {
  }

  lemma CarbonaraDescriptionHeadLacksK()
    ensures 'k' !in "A traditional Italian pasta dish with eggs," && 'K' !in "A traditional Italian pasta dish with eggs,"
  {
    LacksKInPieces("A traditional Italian pasta dish with eggs,", "A traditional Italian pasta dish", " with eggs,");
  }

  lemma CarbonaraDescriptionBodyLacksK()
    ensures 'k' !in "A traditional Italian pasta dish with eggs, cheese, and" && 'K' !in "A traditional Italian pasta dish with eggs, cheese, and"
  {
    CarbonaraDescriptionHeadLacksK();
    LacksKInPieces("A traditional Italian pasta dish with eggs, cheese, and", "A traditional Italian pasta dish with eggs,", " cheese, and");
  }

  lemma CarbonaraDescriptionLacksK()
    ensures 'k' !in CarbonaraDescription && 'K' !in CarbonaraDescription
  {
    CarbonaraDescriptionBodyLacksK();
    LacksKInPieces(CarbonaraDescription, "A traditional Italian pasta dish with eggs, cheese, and", " pancetta.");
  }

  lemma WellingtonTitleLacksK()
    ensures 'k' !in WellingtonTitle && 'K' !in WellingtonTitle
  {
  }

  lemma WellingtonDescriptionHeadLacksK()
    ensures 'k' !in "An elegant dish of beef tenderloin wrapped" && 'K' !in "An elegant dish of beef tenderloin wrapped"
  {
    LacksKInPieces("An elegant dish of beef tenderloin wrapped", "An elegant dish of beef tenderloin", " wrapped");
  }

  lemma WellingtonDescriptionLacksK()
    ensures 'k' !in WellingtonDescription && 'K' !in WellingtonDescription
  {
    WellingtonDescriptionHeadLacksK();
    LacksKInPieces(WellingtonDescription, "An elegant dish of beef tenderloin wrapped", " in puff pastry.");
  }

  lemma CarbonaraLacksCookie()
    ensures !Matches(Carbonara(), "cookie")
  {
    CarbonaraTitleLacksK();
    CarbonaraDescriptionLacksK();
    NoLetterK(CarbonaraTitle);
    NoLetterK(CarbonaraDescription);
  }

  lemma WellingtonLacksCookie()
    ensures !Matches(Wellington(), "cookie")
  {
    WellingtonTitleLacksK();
    WellingtonDescriptionLacksK();
    NoLetterK(WellingtonTitle);
    NoLetterK(WellingtonDescription);
  }

  lemma SearchOfThree(a: Recipe, b: Recipe, c: Recipe, term: string)
    requires !Matches(a, term) && Matches(b, term) && !Matches(c, term)
    ensures Search([a, b, c], term) == [b]
  {
    assert [c][1..] == [];
    assert Search([c], term) == [];
    assert [b, c][1..] == [c];
    assert Search([b, c], term) == [b];
    assert [a, b, c][1..] == [b, c];
  }

  /** Searching the seed for "cookie" finds the cookies only. */
  lemma SeedSearchCookie()
    ensures Search(SeedRecipes(), "cookie") == [Cookies()]
  {
    CookiesMatch();
    CarbonaraLacksCookie();
    WellingtonLacksCookie();
    SearchOfThree(Carbonara(), Cookies(), Wellington(), "cookie");
  }

  lemma DeleteSecondOfThree(a: Recipe, b: Recipe, c: Recipe)
    requires a.id == 1 && b.id == 2 && c.id == 3
    ensures FindIndex([a, b, c], 2) == Some(1)
    ensures RemoveAt([a, b, c], 1) == [a, c]
    ensures List([a, c], Some(1), Some(10)) == RecipeListResponse([a, c], 2, 1, 10)
  {
    assert [a, b, c][1..] == [b, c];
    assert [a, c][0..2] == [a, c];
  }

  /** After the delete the next id is still one past the largest, 4, not a reused 3. */
  lemma NextIdAfterDelete(a: Recipe, c: Recipe)
    requires a.id == 1 && c.id == 3
    ensures NextId([a, c]) == 4
  {
    assert Ids([a, c]) == [1, 3];
  }

  /** Deleting id 2 leaves ids [1, 3] on the first page, with total 2. */
  lemma SeedDeleteThenList()
    ensures FindIndex(SeedRecipes(), 2) == Some(1)
    ensures RemoveAt(SeedRecipes(), 1) == [Carbonara(), Wellington()]
    ensures List([Carbonara(), Wellington()], Some(1), Some(10))
         == RecipeListResponse([Carbonara(), Wellington()], 2, 1, 10)
  {
    DeleteSecondOfThree(Carbonara(), Cookies(), Wellington());
  }

  /** Paging and searching through a freshly seeded store object. */
  method SeedReadSession() {
    var store := new RecipeStore();
    SeedPages();
    var first := store.GetRecipes(Some(1), Some(2));
    assert first.recipes == [Carbonara(), Cookies()] && first.total == 3;
    var second := store.GetRecipes(Some(2), Some(2));
    assert second.recipes == [Wellington()] && second.total == 3;

    SeedSearchCookie();
    var found := store.SearchRecipes("cookie");
    assert found == [Cookies()];
  }

  /** Deleting, re-deleting and creating through a freshly seeded store object. */
  method SeedWriteSession() {
    var store := new RecipeStore();
    SeedDeleteThenList();
    var deleted := store.DeleteRecipe(2);
    assert deleted == Ok(DeleteResponse(true));
    assert store.recipes == [Carbonara(), Wellington()];
    var afterDelete := store.GetRecipes(Some(1), Some(10));
    assert afterDelete.recipes == [Carbonara(), Wellington()] && afterDelete.total == 2;

    var missing := store.GetRecipe(2);
    assert missing == Err(NotFound);
    var again := store.DeleteRecipe(2);
    assert again == Err(NotFound) && |store.recipes| == 2;

    NextIdAfterDelete(Carbonara(), Wellington());
    var created := store.CreateRecipe(WithoutId(Cookies()));
    assert created.id == 4 && |store.recipes| == 3;
  }
}
