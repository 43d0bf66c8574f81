/**
 * The typed contract of the GraphQL API: the `Recipe` output type, the two input
 * types and the arguments of `Query.recipes`, together with the coercion that the
 * GraphQL layer applies to an input object before a resolver ever sees it.
 */
module Schema {
  import opened Wrappers

  /** `ID` values are opaque strings. */
  type Id = string

  /** `type Recipe`: every field is non-null, and so is every list element. */
  datatype Recipe = Recipe(
    id: Id,
    name: string,
    description: string,
    ingredients: seq<string>,
    instructions: seq<string>)

  /** `input AddRecipeInput`: all four content fields are required. */
  datatype AddRecipeInput = AddRecipeInput(
    name: string,
    description: string,
    ingredients: seq<string>,
    instructions: seq<string>)

  /** `input UpdateRecipeInput`: every field is optional; a list that is given has non-null elements. */
  datatype UpdateRecipeInput = UpdateRecipeInput(
    name: Option<string>,
    description: Option<string>,
    ingredients: Option<seq<string>>,
    instructions: Option<seq<string>>)

  /** The arguments of `Query.recipes(limit: Int, offset: Int)`: both optional. */
  datatype RecipesArgs = RecipesArgs(limit: Option<int>, offset: Option<int>)

  /**
   * An input object as it arrives in a request, before coercion: any field may be
   * missing or null (`None`), and so may any element of a list.
   */
  datatype WireInput = WireInput(
    name: Option<string>,
    description: Option<string>,
    ingredients: Option<seq<Option<string>>>,
    instructions: Option<seq<Option<string>>>)

  /** No element of the list is null. */
  predicate NoNulls(xs: seq<Option<string>>) {
    forall k :: 0 <= k < |xs| ==> xs[k].Some?
  }

  /** Coercion of a list value to `[String!]`: it succeeds exactly when no element is null. */
  function CoerceList(xs: seq<Option<string>>): (r: Option<seq<string>>)
    ensures r.Some? <==> NoNulls(xs)
    ensures r.Some? ==> |r.value| == |xs| && forall k :: 0 <= k < |xs| ==> xs[k] == Some(r.value[k])
  {
    if xs == [] then Some([])
    else if xs[0].None? then None
    else
      match CoerceList(xs[1..])
      case None => None
      case Some(rest) => Some([xs[0].value] + rest)
  }

  /** A list supplied by a client that holds no nulls. */
  function Lift(xs: seq<string>): (r: seq<Option<string>>)
  {
    seq(|xs|, k requires 0 <= k < |xs| => Some(xs[k]))
  }

  /**
   * Coercion of a request's input object to `AddRecipeInput!`: it is rejected when any
   * of the four fields is missing or null, or when a list holds a null.
   */
  function CoerceAddInput(w: WireInput): (r: Option<AddRecipeInput>)
    ensures r.Some? <==>
      && w.name.Some? && w.description.Some?
      && w.ingredients.Some? && NoNulls(w.ingredients.value)
      && w.instructions.Some? && NoNulls(w.instructions.value)
    ensures r.Some? ==>
      && r.value.name == w.name.value
      && r.value.description == w.description.value
      && Lift(r.value.ingredients) == w.ingredients.value
      && Lift(r.value.instructions) == w.instructions.value
  {
    if w.name.None? || w.description.None? || w.ingredients.None? || w.instructions.None? then None
    else
      match (CoerceList(w.ingredients.value), CoerceList(w.instructions.value))
      case (Some(ing), Some(ins)) => Some(AddRecipeInput(w.name.value, w.description.value, ing, ins))
      case _ => None
  }

  /**
   * Coercion of a request's input object to `UpdateRecipeInput!`: any field may be
   * left out, but a list that is given must hold no null.
   */
  function CoerceUpdateInput(w: WireInput): (r: Option<UpdateRecipeInput>)
    ensures r.Some? <==>
      && (w.ingredients.Some? ==> NoNulls(w.ingredients.value))
      && (w.instructions.Some? ==> NoNulls(w.instructions.value))
    ensures r.Some? ==>
      && r.value.name == w.name
      && r.value.description == w.description
      && (r.value.ingredients.Some? <==> w.ingredients.Some?)
      && (r.value.ingredients.Some? ==> Lift(r.value.ingredients.value) == w.ingredients.value)
      && (r.value.instructions.Some? <==> w.instructions.Some?)
      && (r.value.instructions.Some? ==> Lift(r.value.instructions.value) == w.instructions.value)
  {
    var ing := if w.ingredients.None? then Some(None) else
      match CoerceList(w.ingredients.value) case None => None case Some(xs) => Some(Some(xs));
    var ins := if w.instructions.None? then Some(None) else
      match CoerceList(w.instructions.value) case None => None case Some(xs) => Some(Some(xs));
    if ing.None? || ins.None? then None
    else Some(UpdateRecipeInput(w.name, w.description, ing.value, ins.value))
  }

  /** The request variables built from a typed `AddRecipeInput`. */
  function AddInputToWire(i: AddRecipeInput): WireInput {
    WireInput(Some(i.name), Some(i.description), Some(Lift(i.ingredients)), Some(Lift(i.instructions)))
  }

  /** The request variables built from a typed `UpdateRecipeInput`. */
  function UpdateInputToWire(u: UpdateRecipeInput): WireInput {
    WireInput(
      u.name, u.description,
      if u.ingredients.Some? then Some(Lift(u.ingredients.value)) else None,
      if u.instructions.Some? then Some(Lift(u.instructions.value)) else None)
  }

  lemma LiftInjective(xs: seq<string>, ys: seq<string>)
    ensures Lift(xs) == Lift(ys) ==> xs == ys
  {
    if Lift(xs) == Lift(ys) {
      assert |xs| == |ys|;
      forall k | 0 <= k < |xs| ensures xs[k] == ys[k] {
        assert Lift(xs)[k] == Lift(ys)[k];
      }
    }
  }

  /** Every well-typed `AddRecipeInput` a client sends survives coercion unchanged. */
  lemma AddInputRoundTrip(i: AddRecipeInput)
    ensures CoerceAddInput(AddInputToWire(i)) == Some(i)
  {
    var r := CoerceAddInput(AddInputToWire(i));
    LiftInjective(r.value.ingredients, i.ingredients);
    LiftInjective(r.value.instructions, i.instructions);
  }

  /** Every well-typed `UpdateRecipeInput` a client sends survives coercion unchanged. */
  lemma UpdateInputRoundTrip(u: UpdateRecipeInput)
    ensures CoerceUpdateInput(UpdateInputToWire(u)) == Some(u)
  {
    var r := CoerceUpdateInput(UpdateInputToWire(u));
    if u.ingredients.Some? { LiftInjective(r.value.ingredients.value, u.ingredients.value); }
    if u.instructions.Some? { LiftInjective(r.value.instructions.value, u.instructions.value); }
  }
}
