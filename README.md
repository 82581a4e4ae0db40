# Recipe record store

A model of the in-memory recipe API in `api/recipeApi.ts`: an ordered,
process-wide array of recipe records (`fakeRecipes`, seeded with three
recipes with ids 1, 2 and 3) and the six query functions that read and
update it.

- **Reads** (pure functions of the current sequence, module `RecipeQueries`):
  `getRecipes` pages the store with JavaScript `slice` semantics and reports
  the full size as `total`; `getRecipe` returns the first record with the id
  or the error `{ status: 404, data: 'Recipe not found' }`; `searchRecipes`
  keeps, in store order, the records whose lower-cased title or description
  contains the lower-cased term.
- **Mutations** (methods of the class `RecipeStore.RecipeStore`, whose field
  `recipes: seq<Recipe>` stands for the mutable array): `createRecipe` gives
  the input the id `max + 1` and pushes it; `updateRecipe` overwrites the
  first position with the same id, or answers 404; `deleteRecipe` splices out
  the first position with the id and answers `{ success: true }`, or 404.
  Every error path leaves the store as it was.
- The read methods of the class have no `modifies` clause, so the verifier
  checks that a read never changes the store.
- Ids stay unique: every mutation keeps `UniqueIds`, and the seed has it.

Files: `recipe_types.dfy` (records, results, id vocabulary), `text.dfy`
(ASCII lower-casing, substring containment), `queries.dfy` (the three reads),
`ids.dfy` (id assignment, uniqueness, the empty-store finding), `store.dfy`
(the store class and the mutations), `seed.dfy` (the three seeded recipes),
`scenario.dfy` (the seeded store paged, searched, and changed by a delete and a create).

`page` and `limit` are not validated: page 0 or a negative limit give
whatever `slice` gives, and the model does the same. On an empty store the
code gives a created recipe the id -Infinity; that is modelled by
`RecipeIds.NextIdAsWritten`, while the store class uses the corrected rule
(id 1 on an empty store, see Findings).

## Model

| member | source | states |
|---|---|---|
| RecipeTypes.WithId | api/recipeApi.ts:189-192 | the created record has exactly the given id and, apart from the id, is the input record (`WithoutId(WithId(n, id)) == n`) |
| RecipeTypes.Ids | api/recipeApi.ts:191 | the list of ids `fakeRecipes.map(r => r.id)`: one id per record, the k-th being the k-th record's id |
| Text.Lower | api/recipeApi.ts:175-176 | ASCII `toLowerCase`: same length, each character lower-cased on its own; `LowerIdempotent` shows that lower-casing twice changes nothing |
| Text.Includes | api/recipeApi.ts:175-176 | `String.prototype.includes` as a left-to-right scan; an included needle is never longer than the haystack, and `IncludesIffOccurs` shows the scan answers true exactly when the needle occurs somewhere |
| Text.IncludesIffOccurs | api/recipeApi.ts:175-176 | `includes` returns true exactly when the needle occurs at some position of the haystack |
| Text.IncludesEmpty | api/recipeApi.ts:175-176 | every string includes the empty string |
| Text.IncludesNeedsEveryChar | api/recipeApi.ts:175-176 | a needle with a character the haystack lacks is not included |
| Text.LowerIdempotent | api/recipeApi.ts:175-176 | lower-casing twice equals lower-casing once |
| RecipeQueries.ClampIndex | api/recipeApi.ts:140 | a `slice` bound resolves into `[0, len]`: kept when in range, clamped above, counted from the end when negative |
| RecipeQueries.Slice | api/recipeApi.ts:140 | `slice` yields the contiguous run of the store between the two resolved bounds, empty when they cross |
| RecipeQueries.List | api/recipeApi.ts:135-149 | `total` is the whole store size for every page and limit; `page` and `limit` are echoed, defaulting to 1 and 10; the page is never longer than the store |
| RecipeQueries.ListPage | api/recipeApi.ts:138-140 | for page >= 1 and limit >= 1 the page has `min(limit, max(0, total - (page-1)*limit))` records, the store's records from position `(page-1)*limit` on, in order |
| RecipeQueries.ListPastEnd | api/recipeApi.ts:138-145 | a page starting at or beyond the end is empty, not an error, and still reports the full total |
| RecipeQueries.ListPageZero | api/recipeApi.ts:135-140 | page 0 is accepted and always yields an empty page |
| RecipeQueries.ListPagesAdjacent | api/recipeApi.ts:138-140 | page p followed by page p+1 is the store window of twice the limit starting at page p, so pages tile the store without gaps or overlap |
| RecipeQueries.FindIndex | api/recipeApi.ts:206 | `findIndex` gives none (-1) exactly when no record has the id, otherwise the first position holding it |
| RecipeQueries.GetById | api/recipeApi.ts:159-164 | a record is returned exactly when the id is present, it is a store record with that id (the only one when ids are unique); otherwise the result is the 404 error |
| RecipeQueries.Matches | api/recipeApi.ts:174-177 | the filter test: lower-cased title or lower-cased description includes the lower-cased term; the empty term matches every record and a term longer than both fields matches none; `Search`'s ensures ties it to the result |
| RecipeQueries.Search | api/recipeApi.ts:174-179 | a record is in the result exactly when it is in the store and its lower-cased title or description contains the lower-cased term; the result is never longer than the store |
| RecipeQueries.SearchAppend | api/recipeApi.ts:174-177 | the filter keeps store order: searching a concatenation is the concatenation of the searches |
| RecipeQueries.SearchAllMatch | api/recipeApi.ts:174-177 | when every record matches, the result is the store itself |
| RecipeQueries.SearchEmptyTerm | api/recipeApi.ts:174-177 | the empty term returns the whole store |
| RecipeQueries.SearchNoMatch | api/recipeApi.ts:174-179 | when nothing matches the result is the empty sequence |
| RecipeQueries.SearchCaseInsensitive | api/recipeApi.ts:175-176 | searching for a term and for its lower-cased form give the same result |
| RecipeIds.MaxOf | api/recipeApi.ts:191 | `Math.max` of a non-empty id list is one of the ids and no id exceeds it |
| RecipeIds.NextId | api/recipeApi.ts:191 | the new id is greater than every id in the store; on a non-empty store it is some id plus one; on the empty store it is 1 |
| RecipeIds.CreateKeepsIdsUnique | api/recipeApi.ts:189-194 | pushing a record with the next id keeps ids unique, and that id was absent before and present after |
| RecipeIds.ReplaceKeepsIdsUnique | api/recipeApi.ts:206-211 | overwriting a position with a record of the same id keeps ids unique |
| RecipeIds.RemoveKeepsIdsUnique | api/recipeApi.ts:223-228 | removing one position keeps ids unique |
| RecipeIds.MathMax | api/recipeApi.ts:191 | `Math.max()` with no arguments is -Infinity; the result is -Infinity exactly when every argument is, and otherwise is finite and at least every finite argument |
| RecipeIds.NextIdAsWritten | api/recipeApi.ts:191 | `Math.max(...ids) + 1` as the code writes it: -Infinity exactly when every id is -Infinity (in particular on an empty store), otherwise finite and greater than every finite id; `NextIdAsWrittenAgrees` and `AsWrittenStaysNegInfinity` relate it to `NextId` and show the repeat |
| RecipeIds.MathMaxOfFinite | api/recipeApi.ts:191 | over finite ids `Math.max` is the integer maximum |
| RecipeIds.NextIdAsWrittenAgrees | api/recipeApi.ts:191 | on a non-empty store the id expression as written and `NextId` give the same id |
| RecipeIds.AsWrittenStaysNegInfinity | api/recipeApi.ts:191 | as written, a store whose ids are all -Infinity (the empty store included) hands out -Infinity again |
| RecipeIds.EmptyStoreDuplicateIds | api/recipeApi.ts:191-194 | as written, two creates on an empty store both get the id -Infinity; `NextId` gives them 1 and 2 |
| RecipeStore.RemoveAt | api/recipeApi.ts:228 | `splice(i, 1)` shortens the store by one, keeps the records before `i` and shifts the ones after it down by one, and removes exactly one copy of the record at `i` |
| RecipeStore.RecipeStore.constructor | api/recipeApi.ts:28-116 | the store starts as the three seeded recipes, with unique ids |
| RecipeStore.RecipeStore.GetRecipes | api/recipeApi.ts:134-150 | the response is the page of the current store, with the full store size as total; the store is not changed |
| RecipeStore.RecipeStore.GetRecipe | api/recipeApi.ts:155-165 | the result is the lookup in the current store, a record exactly when the id is present; the store is not changed |
| RecipeStore.RecipeStore.SearchRecipes | api/recipeApi.ts:170-180 | the result holds exactly the matching records of the current store; the store is not changed |
| RecipeStore.RecipeStore.CreateRecipe | api/recipeApi.ts:185-197 | the created record is the input with an id above every existing id; it is appended, all earlier positions unchanged; looking it up finds it; unique ids stay unique |
| RecipeStore.RecipeStore.UpdateRecipe | api/recipeApi.ts:202-214 | when the id is present, exactly its first position is replaced by the new record and the record is returned; otherwise 404 and the store is unchanged; length never changes; a lookup of the id afterwards gives the same answer; unique ids stay unique |
| RecipeStore.RecipeStore.DeleteRecipe | api/recipeApi.ts:219-231 | when the id is present, exactly its first position is removed, the rest keep their order, and `{ success: true }` is returned; otherwise 404 and the store is unchanged; with unique ids the id is gone afterwards and ids stay unique |
| RecipeStore.CreateThenGet | api/recipeApi.ts:189-196 | after a create, `getRecipe` of the new id returns the created record |
| RecipeStore.UpdateThenGet | api/recipeApi.ts:206-213 | after an update of a present id, `getRecipe` of that id returns the new record |
| RecipeStore.DeleteThenGet | api/recipeApi.ts:223-230 | after deleting a present id from a store with unique ids, `getRecipe` of that id answers 404 |
| SeedData.SeedIdsUnique | api/recipeApi.ts:28-116 | the seeded ids are 1, 2, 3, and unique |
| Scenario.SeedPages | api/recipeApi.ts:138-148 | on the seed, page 1 of 2 is recipes 1 and 2, page 2 of 2 is recipe 3, the defaults give all three, total 3 each time |
| Scenario.SeedSearchCookie | api/recipeApi.ts:174-177 | on the seed, searching "cookie" returns only the chocolate chip cookies (id 2) |
| Scenario.SeedDeleteThenList | api/recipeApi.ts:223-230 | on the seed, deleting id 2 removes position 1 and leaves recipes 1 and 3, total 2 |
| Scenario.NextIdAfterDelete | api/recipeApi.ts:191 | after ids 1 and 3 remain, the next id is 4: a deleted id is not reused unless it was the largest |

## Findings

| source | as written | input that shows it | evidently intended | confidence | as-written member | corrected member |
|---|---|---|---|---|---|---|
| api/recipeApi.ts:191 | the new id is `Math.max(...ids) + 1`; on an empty store `Math.max()` is -Infinity and so is the new id | delete ids 1, 2 and 3, then create two recipes: both get the id -Infinity, so ids are no longer unique: while the first is in the store, `getRecipe`, `updateRecipe` and `deleteRecipe` of -Infinity all reach only the first | every created recipe gets a fresh numeric id; here 1 on an empty store, `max + 1` otherwise | not executed; medium (the code defines no empty-store rule; the choice of 1 follows the seed's numbering) | RecipeIds.EmptyStoreDuplicateIds | RecipeIds.NextId |

The store class uses `NextId`; `RecipeIds.NextIdAsWrittenAgrees` shows that
it differs from the code only on the empty store.

## Left out

- The simulated latency (`delay`, `setTimeout`) and the `await` points: each query function suspends once, at its `await delay(...)`, before it touches the store. It then reads or updates the store without suspending, so each is modelled as one atomic step. When calls overlap, the steps run in the order their delays expire, not the order of the calls; that ordering is not modelled.
- `createApi`, `fetchBaseQuery`, `prepareHeaders` and the base URL: configuration of the request library, whose code is not part of this model.
- `providesTags` / `invalidatesTags` and everything the cache does with them (deduplication, refetching): behaviour of the external caching library.
- The exported hooks: UI glue with no logic.
- store/index.ts and api/healthApi.ts are not part of this model: store wiring and an HTTP pass-through with no logic of their own.
- JavaScript numbers are modelled as unbounded integers: fractional, NaN or infinite `page`, `limit` or ids, and precision loss above 2^53, are not modelled (the -Infinity id of the empty store is modelled separately, see Findings).
- `page` and `limit` are `Option`s: only an absent value takes the default, as with a destructuring default; an explicit `null` is not modelled.
- `toLowerCase` is modelled on ASCII letters only; Unicode case mapping is not.
- Records are values: the store keeps the very object passed to `updateRecipe` and hands out its own objects, so a caller mutating them later would change the store; that aliasing is not modelled.
- `WithId` keeps only the declared fields of `newRecipe`, while the spread would also copy any extra own properties a caller attaches at run time; those are not modelled.
- RecipeStore.RecipeStore.CreateRecipe: on an empty store it uses the corrected id rule (1) instead of the code's -Infinity, as logged under Findings.
