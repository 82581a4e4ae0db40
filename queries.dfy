/** The three read endpoints of the recipe API (getRecipes, getRecipe,
    searchRecipes) as functions of the store's current sequence of records.
    None of them changes the store. */
module RecipeQueries {
  import opened RecipeTypes
  import opened Text

  function Min(a: int, b: int): int { if a <= b then a else b }
  function Max(a: int, b: int): int { if a <= b then b else a }

  /** How `Array.prototype.slice` resolves one bound against a length:
      a negative bound counts back from the end, and the result is clamped
      to `[0, len]`. */
  function ClampIndex(i: int, len: nat): (r: nat)
    ensures r <= len
    ensures 0 <= i <= len ==> r == i
    ensures i > len ==> r == len
    ensures i < 0 ==> r == Max(0, len + i)
  {
    if i < 0 then (if len + i < 0 then 0 else len + i)
    else if i > len then len
    else i
  }

  /** `s.slice(start, end)`: the contiguous window between the two resolved
      bounds, empty when they cross. */
  function Slice(s: seq<Recipe>, start: int, end: int): (r: seq<Recipe>)
    ensures |r| == Max(0, ClampIndex(end, |s|) - ClampIndex(start, |s|))
    ensures forall k :: 0 <= k < |r| ==> r[k] == s[ClampIndex(start, |s|) + k]
  {
    var from, to := ClampIndex(start, |s|), ClampIndex(end, |s|);
    if from < to then s[from..to] else []
  }

  /** getRecipes: `page` and `limit` default to 1 and 10; the page is the
      slice `[(page-1)*limit, (page-1)*limit + limit)` and `total` is the
      size of the whole store. */
  function List(s: seq<Recipe>, page: Option<int>, limit: Option<int>): (r: RecipeListResponse)
    ensures r.total == |s|
    ensures r.page == page.GetOr(1) && r.limit == limit.GetOr(10)
    ensures |r.recipes| <= |s|
  {
    var p, l := page.GetOr(1), limit.GetOr(10);
    var startIndex := (p - 1) * l;
    var endIndex := startIndex + l;
    RecipeListResponse(Slice(s, startIndex, endIndex), |s|, p, l)
  }

  lemma MulNonNegative(a: int, b: int)
    requires a >= 0 && b >= 0
    ensures a * b >= 0
  {
  }

  /** For `page >= 1` and `limit >= 1` the page holds exactly
      `min(limit, max(0, total - (page-1)*limit))` records, and they are the
      store's records from position `(page-1)*limit` on, in order. */
  lemma ListPage(s: seq<Recipe>, page: int, limit: int)
    requires page >= 1 && limit >= 1
    ensures var r := List(s, Some(page), Some(limit)).recipes;
      && |r| == Min(limit, Max(0, |s| - (page - 1) * limit))
      && forall k :: 0 <= k < |r| ==> r[k] == s[(page - 1) * limit + k]
  {
    var start := (page - 1) * limit;
    MulNonNegative(page - 1, limit);
    assert ClampIndex(start, |s|) == Min(start, |s|);
    assert ClampIndex(start + limit, |s|) == Min(start + limit, |s|);
  }

  /** A page past the end of the store is empty rather than an error. */
  lemma ListPastEnd(s: seq<Recipe>, page: int, limit: int)
    requires page >= 1 && limit >= 1
    requires (page - 1) * limit >= |s|
    ensures List(s, Some(page), Some(limit)).recipes == []
    ensures List(s, Some(page), Some(limit)).total == |s|
  {
  }

  /** Page 0 is not rejected: its window is `slice(-limit, 0)`, whose end
      resolves to 0, so it is empty whatever the limit. */
  lemma ListPageZero(s: seq<Recipe>, limit: int)
    ensures List(s, Some(0), Some(limit)).recipes == []
  {
  }

  /** Consecutive pages tile the store: page `p` followed by page `p+1` is
      the window of size `2*limit` starting where page `p` starts. */
  lemma ListPagesAdjacent(s: seq<Recipe>, page: int, limit: int)
    requires page >= 1 && limit >= 1
    ensures List(s, Some(page), Some(limit)).recipes + List(s, Some(page + 1), Some(limit)).recipes
         == Slice(s, (page - 1) * limit, (page - 1) * limit + 2 * limit)
  {
    MulNonNegative(page - 1, limit);
    var a := (page - 1) * limit;
    assert page * limit == a + limit;
    var n := |s|;
    var x, y := Min(a, n), Min(a + limit, n);
    var z := Min(a + 2 * limit, n);
    assert List(s, Some(page), Some(limit)).recipes == s[x..y];
    assert List(s, Some(page + 1), Some(limit)).recipes == s[y..z];
    assert s[x..y] + s[y..z] == s[x..z];
  }

  /** `findIndex(r => r.id === id)`: the first position holding `id`, or
      none (JavaScript's -1). */
  function FindIndex(s: seq<Recipe>, id: int): (r: Option<nat>)
    ensures r.None? <==> !HasId(s, id)
    ensures r.Some? ==> r.value < |s| && s[r.value].id == id
    ensures r.Some? ==> forall j :: 0 <= j < r.value ==> s[j].id != id
  {
    if |s| == 0 then None
    else if s[0].id == id then Some(0)
    else
      match FindIndex(s[1..], id)
      case None => None
      case Some(i) => Some(i + 1)
  }

  /** getRecipe: the first record carrying `id`, or the 404 error. */
  function GetById(s: seq<Recipe>, id: int): (r: Result<Recipe>)
    ensures r.Ok? <==> HasId(s, id)
    ensures r.Ok? ==> r.value in s && r.value.id == id
    ensures r.Ok? ==> r.value == s[FindIndex(s, id).value]
    ensures r.Err? ==> r.error == NotFound
    ensures r.Ok? && UniqueIds(s) ==> forall k :: 0 <= k < |s| && s[k].id == id ==> s[k] == r.value
  {
    match FindIndex(s, id)
    case Some(i) => Ok(s[i])
    case None => Err(NotFound)
  }

  /** The search predicate: the lower-cased title or the lower-cased
      description contains the lower-cased term. */
  predicate Matches(r: Recipe, term: string)
    ensures term == "" ==> Matches(r, term)
    ensures Matches(r, term) ==> |term| <= |r.title| || |term| <= |r.description|
  {
    IncludesEmpty(Lower(r.title));
    Includes(Lower(r.title), Lower(term)) || Includes(Lower(r.description), Lower(term))
  }

  /** searchRecipes: `filter(Matches)` over the store. */
  function Search(s: seq<Recipe>, term: string): (res: seq<Recipe>)
    ensures |res| <= |s|
    ensures forall r :: r in res <==> r in s && Matches(r, term)
  {
    if |s| == 0 then []
    else (if Matches(s[0], term) then [s[0]] else []) + Search(s[1..], term)
  }

  /** The filter keeps store order: searching a concatenation concatenates the searches. */
  lemma {:induction false} SearchAppend(a: seq<Recipe>, b: seq<Recipe>, term: string)
    ensures Search(a + b, term) == Search(a, term) + Search(b, term)
  {
    if |a| == 0 {
      assert a + b == b;
    } else {
      assert (a + b)[1..] == a[1..] + b;
      SearchAppend(a[1..], b, term);
    }
  }

  /** Records that all match are returned as they stand, in the same order. */
  lemma {:induction false} SearchAllMatch(s: seq<Recipe>, term: string)
    requires forall k :: 0 <= k < |s| ==> Matches(s[k], term)
    ensures Search(s, term) == s
  {
    if |s| > 0 {
      SearchAllMatch(s[1..], term);
    }
  }

  /** The empty term matches every record, so it returns the whole store. */
  lemma SearchEmptyTerm(s: seq<Recipe>)
    ensures Search(s, "") == s
  {
  }

  /** No match gives the empty sequence, never an error. */
  lemma SearchNoMatch(s: seq<Recipe>, term: string)
    requires forall k :: 0 <= k < |s| ==> !Matches(s[k], term)
    ensures Search(s, term) == []
  {
  }

  /** The term's letter case does not matter. */
  lemma {:induction false} SearchCaseInsensitive(s: seq<Recipe>, term: string)
    ensures Search(s, term) == Search(s, Lower(term))
  {
    LowerIdempotent(term);
    if |s| > 0 {
      SearchCaseInsensitive(s[1..], term);
    }
  }
}
