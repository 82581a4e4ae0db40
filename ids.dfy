/** Id assignment for createRecipe: `Math.max(...fakeRecipes.map(r => r.id)) + 1`.

    As written, the rule is only sound on a non-empty store: `Math.max()`
    with no arguments is `-Infinity`, and `-Infinity + 1` is `-Infinity`
    again, so once every record has been deleted each further create gets
    the same non-numeric id. `NextIdAsWritten` models that expression over
    JavaScript numbers; `NextId`, which the store uses, agrees with it on
    every non-empty store and starts again at 1 on the empty one. */
module RecipeIds {
  import opened RecipeTypes

  /** The largest of a non-empty list of ids. */
  function MaxOf(xs: seq<int>): (m: int)
    requires |xs| > 0
    ensures m in xs
    ensures forall x :: x in xs ==> x <= m
  {
    if |xs| == 1 then xs[0]
    else
      var rest := MaxOf(xs[1..]);
      assert forall x :: x in xs ==> x == xs[0] || x in xs[1..];
      if xs[0] >= rest then xs[0] else rest
  }

  /** The id the store gives the next created record. */
  function NextId(s: seq<Recipe>): (id: int)
    ensures forall k :: 0 <= k < |s| ==> s[k].id < id
    ensures |s| == 0 ==> id == 1
    ensures |s| > 0 ==> exists k :: 0 <= k < |s| && id == s[k].id + 1
  {
    if |s| == 0 then 1
    else
      var ids := Ids(s);
      var m := MaxOf(ids);
      assert forall k :: 0 <= k < |s| ==> ids[k] in ids;
      m + 1
  }

  /** Appending a record with the next id keeps ids unique. */
  lemma CreateKeepsIdsUnique(s: seq<Recipe>, n: NewRecipe)
    requires UniqueIds(s)
    ensures UniqueIds(s + [WithId(n, NextId(s))])
    ensures HasId(s + [WithId(n, NextId(s))], NextId(s)) && !HasId(s, NextId(s))
  {
    var t := s + [WithId(n, NextId(s))];
    assert t[|s|].id == NextId(s);
  }

  /** Overwriting a position with a record of the same id keeps ids unique. */
  lemma ReplaceKeepsIdsUnique(s: seq<Recipe>, i: nat, r: Recipe)
    requires UniqueIds(s)
    requires i < |s| && s[i].id == r.id
    ensures UniqueIds(s[i := r])
  {
  }

  /** Removing one position keeps ids unique. */
  lemma RemoveKeepsIdsUnique(s: seq<Recipe>, i: nat)
    requires UniqueIds(s)
    requires i < |s|
    ensures UniqueIds(s[..i] + s[i + 1..])
  {
  }

  /** A JavaScript number as far as the id expression needs it: a finite
      integer, or `-Infinity`, the value of `Math.max()` on no arguments. */
  datatype JsNumber = NegInfinity | Finite(n: int)

  function JsMax(a: JsNumber, b: JsNumber): JsNumber {
    match (a, b)
    case (NegInfinity, _) => b
    case (_, NegInfinity) => a
    case (Finite(x), Finite(y)) => if x >= y then a else b
  }

  /** `Math.max(...xs)`. */
  function MathMax(xs: seq<JsNumber>): (m: JsNumber)
    ensures xs == [] ==> m == NegInfinity
    ensures m == NegInfinity <==> forall k :: 0 <= k < |xs| ==> xs[k] == NegInfinity
    ensures forall k :: 0 <= k < |xs| && xs[k].Finite? ==> m.Finite? && xs[k].n <= m.n
  {
    if |xs| == 0 then NegInfinity else JsMax(xs[0], MathMax(xs[1..]))
  }

  /** `x + 1`; `-Infinity + 1` is `-Infinity`. */
  function PlusOne(x: JsNumber): JsNumber {
    match x
    case NegInfinity => NegInfinity
    case Finite(v) => Finite(v + 1)
  }

  /** `Math.max(...ids) + 1`, exactly as createRecipe computes it. */
  function NextIdAsWritten(ids: seq<JsNumber>): (r: JsNumber)
    ensures r == NegInfinity <==> forall k :: 0 <= k < |ids| ==> ids[k] == NegInfinity
    ensures forall k :: 0 <= k < |ids| && ids[k].Finite? ==> r.Finite? && ids[k].n < r.n
  {
    PlusOne(MathMax(ids))
  }

  function AsJs(ids: seq<int>): (r: seq<JsNumber>)
    ensures |r| == |ids|
    ensures forall k :: 0 <= k < |ids| ==> r[k] == Finite(ids[k])
  {
    seq(|ids|, k requires 0 <= k < |ids| => Finite(ids[k]))
  }

  lemma {:induction false} MathMaxOfFinite(xs: seq<int>)
    requires |xs| > 0
    ensures MathMax(AsJs(xs)) == Finite(MaxOf(xs))
  {
    if |xs| > 1 {
      MathMaxOfFinite(xs[1..]);
      assert AsJs(xs)[1..] == AsJs(xs[1..]);
    }
  }

  /** On a non-empty store the written expression and `NextId` agree. */
  lemma NextIdAsWrittenAgrees(s: seq<Recipe>)
    requires |s| > 0
    ensures NextIdAsWritten(AsJs(Ids(s))) == Finite(NextId(s))
  {
    MathMaxOfFinite(Ids(s));
  }

  /** A store whose ids are all `-Infinity` (the empty store is one) hands
      out `-Infinity` again: as written, every create after the store has
      been emptied repeats the same id. */
  lemma {:induction false} AsWrittenStaysNegInfinity(ids: seq<JsNumber>)
    requires forall k :: 0 <= k < |ids| ==> ids[k] == NegInfinity
    ensures NextIdAsWritten(ids) == NegInfinity
  {
    if |ids| > 0 {
      AsWrittenStaysNegInfinity(ids[1..]);
    }
  }

  /** Concretely: two creates on an empty store, as written, give two records
      with the same id; `NextId` gives them 1 and 2. */
  lemma EmptyStoreDuplicateIds(n: NewRecipe)
    ensures var first := NextIdAsWritten([]);
            var second := NextIdAsWritten([first]);
            first == second == NegInfinity
    ensures NextId([]) == 1 && NextId([WithId(n, 1)]) == 2
  {
    AsWrittenStaysNegInfinity([NegInfinity]);
  }
}
