/** The three recipes the store starts with. */
module SeedData {
  import opened RecipeTypes

  /** The searchable texts of the seeded recipes. */
  const CarbonaraTitle: string := "Classic Spaghetti Carbonara"
  const CarbonaraDescription: string := "A traditional Italian pasta dish with eggs, cheese, and pancetta."
  const CookiesTitle: string := "Chocolate Chip Cookies"
  const CookiesDescription: string := "Soft and chewy homemade chocolate chip cookies."
  const WellingtonTitle: string := "Beef Wellington"
  const WellingtonDescription: string := "An elegant dish of beef tenderloin wrapped in puff pastry."

  function Carbonara(): Recipe {
    Recipe(
      1,
      CarbonaraTitle,
      CarbonaraDescription,
      ["400g spaghetti", "200g pancetta or guanciale", "4 large eggs",
       "100g Pecorino Romano cheese", "Black pepper", "Salt"],
      ["Cook spaghetti in salted boiling water until al dente",
       "Cut pancetta into small cubes and cook until crispy",
       "Beat eggs with grated cheese and black pepper",
       "Drain pasta and mix with pancetta",
       "Remove from heat and quickly mix in egg mixture",
       "Serve immediately with extra cheese"],
      10, 15, 4, Medium,
      Some("https://images.unsplash.com/photo-1621996346565-e3dbc353d2e5"))
  }

  function Cookies(): Recipe {
    Recipe(
      2,
      CookiesTitle,
      CookiesDescription,
      ["2 1/4 cups all-purpose flour", "1 tsp baking soda", "1 tsp salt",
       "1 cup butter, softened", "3/4 cup granulated sugar", "3/4 cup brown sugar",
       "2 large eggs", "2 tsp vanilla extract", "2 cups chocolate chips"],
      ["Preheat oven to 375°F (190°C)",
       "Mix flour, baking soda, and salt in a bowl",
       "Cream butter and both sugars until fluffy",
       "Beat in eggs and vanilla",
       "Gradually mix in flour mixture",
       "Stir in chocolate chips",
       "Drop rounded tablespoons onto ungreased baking sheets",
       "Bake 9-11 minutes until golden brown"],
      20, 11, 24, Easy,
      Some("https://images.unsplash.com/photo-1499636136210-6f4ee915583e"))
  }

  function Wellington(): Recipe {
    Recipe(
      3,
      WellingtonTitle,
      WellingtonDescription,
      ["2 lb beef tenderloin", "1 lb puff pastry", "8 oz mushrooms", "2 shallots",
       "2 cloves garlic", "2 tbsp Dijon mustard", "2 slices prosciutto",
       "1 egg yolk", "Salt and pepper"],
      ["Season beef and sear on all sides",
       "Brush with mustard and let cool",
       "Sauté mushrooms, shallots, and garlic",
       "Roll out pastry and layer with prosciutto",
       "Wrap beef in mushroom mixture and pastry",
       "Brush with egg yolk and bake at 400°F for 25-30 minutes",
       "Rest before slicing"],
      45, 30, 6, Hard,
      Some("https://images.unsplash.com/photo-1546833999-b9f581a1996d"))
  }

  function SeedRecipes(): seq<Recipe> {
    [Carbonara(), Cookies(), Wellington()]
  }

  lemma SeedIdsUnique()
    ensures Ids(SeedRecipes()) == [1, 2, 3]
    ensures UniqueIds(SeedRecipes())
  {
  }
}
