/**
 * The GraphQL resolvers: `Query.recipes`, `Query.recipe`, `Mutation.addRecipe`,
 * `Mutation.deleteRecipe` and `Mutation.updateRecipe`, run against the recipes
 * collection. Each resolver wraps its work in one `try`; whatever is thrown inside it,
 * the database's own failure or the resolver's own 'Recipe not found', is replaced by
 * one generic message per operation.
 */
module Resolvers {
  import opened Wrappers
  import opened Schema
  import opened Collection

  const FetchRecipesFailed := "Failed to fetch recipes"
  const FetchRecipeFailed := "Failed to fetch recipe"
  const AddRecipeFailed := "Failed to add recipe"
  const DeleteRecipeFailed := "Failed to delete recipe"
  const UpdateRecipeFailed := "Failed to update recipe"
  /** Thrown inside the `try` of `recipe`, `deleteRecipe` and `updateRecipe`; never seen by a caller. */
  const RecipeNotFound := "Recipe not found"

  /** The defaults of `{ limit = 5, offset = 0 }`. */
  const DefaultLimit := 5
  const DefaultOffset := 0

  /** How the database answers the request at hand: normally, or by throwing. */
  datatype Backend = Available | Failing(cause: string)

  /** `catch (error) { throw new Error(message) }`: any error leaves as `message`; a value passes through. */
  function Rethrow<T>(attempt: Result<T>, message: string): Result<T> {
    if attempt.Ok? then attempt else Err(message)
  }

  /** `if (!doc) throw new Error('Recipe not found')`, inside the `try`. */
  function Found(doc: Option<Recipe>): Result<Recipe> {
    if doc.None? then Err(RecipeNotFound) else Ok(doc.value)
  }

  /** A missing document and a storage failure reach the caller as the same error. */
  lemma NotFoundIsIndistinguishable(cause: string, message: string)
    ensures Rethrow(Found(None), message) == Rethrow<Recipe>(Err(cause), message)
    ensures Rethrow(Found(None), message) == Err(message)
  {
  }

  /** The recipes collection as the resolvers see it. */
  class RecipeStore {
    /** The stored documents, in insertion order. */
    var rows: seq<Recipe>

    ghost predicate Valid()
      reads this
    {
      UniqueIds(rows)
    }

    constructor ()
      ensures Valid() && rows == []
    {
      rows := [];
    }

    /** `Query.recipes`: one page of the collection; an empty page is not an error. */
    method QueryRecipes(args: RecipesArgs, backend: Backend) returns (r: Result<seq<Recipe>>)
      requires args.limit.Some? ==> args.limit.value > 0
      requires args.offset.Some? ==> args.offset.value >= 0
      ensures r.Err? <==> backend.Failing?
      ensures r.Err? ==> r.message == FetchRecipesFailed
      ensures r.Ok? ==> r.value == FindPage(rows, args.limit.GetOr(DefaultLimit), args.offset.GetOr(DefaultOffset))
      ensures r.Ok? && args.limit.None? && args.offset.None? ==> r.value == rows[..Min(5, |rows|)]
    {
      var limit := args.limit.GetOr(DefaultLimit);
      var offset := args.offset.GetOr(DefaultOffset);
      var attempt: Result<seq<Recipe>>;
      if backend.Failing? {
        attempt := Err(backend.cause);
      } else {
        attempt := Ok(FindPage(rows, limit, offset));
      }
      r := Rethrow(attempt, FetchRecipesFailed);
    }

    /** `Query.recipe`: the stored document with this id; absent or failing, the same error. */
    method QueryRecipe(id: Id, backend: Backend) returns (r: Result<Recipe>)
      ensures r.Ok? <==> backend.Available? && id in Ids(rows)
      ensures r.Ok? ==> FindById(rows, id) == Some(r.value) && r.value.id == id && r.value in rows
      ensures r.Err? ==> r == Err(FetchRecipeFailed)
    {
      var attempt: Result<Recipe>;
      if backend.Failing? {
        attempt := Err(backend.cause);
      } else {
        attempt := Found(FindById(rows, id));
      }
      r := Rethrow(attempt, FetchRecipeFailed);
    }

    /**
     * `Mutation.addRecipe`: `save` a new document under the id the database assigns,
     * `newId`. A `newId` already in use is a duplicate-key failure of `save`.
     */
    method AddRecipe(input: AddRecipeInput, newId: Id, backend: Backend) returns (r: Result<Recipe>)
      requires Valid()
      modifies this
      ensures Valid()
      ensures r.Ok? <==> backend.Available? && newId !in Ids(old(rows))
      ensures r.Ok? ==> r.value == Recipe(newId, input.name, input.description, input.ingredients, input.instructions)
      ensures r.Ok? ==> rows == old(rows) + [r.value] && FindById(rows, newId) == Some(r.value)
      ensures r.Ok? ==> Ids(rows) == Ids(old(rows)) + {newId}
      ensures r.Err? ==> r == Err(AddRecipeFailed) && rows == old(rows)
    {
      var doc := NewDocument(newId, input);
      var attempt: Result<Recipe>;
      if backend.Failing? {
        attempt := Err(backend.cause);
      } else if newId in Ids(rows) {
        attempt := Err("duplicate key");
      } else {
        SaveFresh(rows, doc);
        rows := rows + [doc];
        attempt := Ok(doc);
      }
      r := Rethrow(attempt, AddRecipeFailed);
    }

    /** `Mutation.deleteRecipe`: remove the document with this id and return it as it was. */
    method DeleteRecipe(id: Id, backend: Backend) returns (r: Result<Recipe>)
      requires Valid()
      modifies this
      ensures Valid()
      ensures r.Ok? <==> backend.Available? && id in Ids(old(rows))
      ensures r.Ok? ==> FindById(old(rows), id) == Some(r.value)
      ensures r.Ok? ==> exists i :: 0 <= i < |old(rows)| && old(rows)[i] == r.value
                                  && rows == old(rows)[..i] + old(rows)[i + 1..]
      ensures r.Ok? ==> Ids(rows) == Ids(old(rows)) - {id}
      ensures r.Err? ==> r == Err(DeleteRecipeFailed) && rows == old(rows)
    {
      var attempt: Result<Recipe>;
      if backend.Failing? {
        attempt := Err(backend.cause);
      } else {
        var doc := FindById(rows, id);
        if doc.Some? {
          ghost var before := rows;
          ghost var i :| 0 <= i < |rows| && rows[i].id == id;
          FindByIdAt(rows, i);
          DeleteByIdAt(rows, i);
          RemoveAtKeepsUnique(rows, i);
          rows := DeleteById(rows, id);
          assert before[i] == doc.value && rows == before[..i] + before[i + 1..];
        }
        attempt := Found(doc);
      }
      r := Rethrow(attempt, DeleteRecipeFailed);
    }

    /** `Mutation.updateRecipe`: `$set` the supplied fields of the document with this id and return it as updated (`new: true`). */
    method UpdateRecipe(id: Id, input: UpdateRecipeInput, backend: Backend) returns (r: Result<Recipe>)
      requires Valid()
      modifies this
      ensures Valid()
      ensures r.Ok? <==> backend.Available? && id in Ids(old(rows))
      ensures r.Ok? ==> r.value == SetFields(FindById(old(rows), id).value, input) && r.value.id == id
      ensures r.Ok? ==> exists i :: 0 <= i < |old(rows)| && old(rows)[i].id == id && rows == old(rows)[i := r.value]
      ensures r.Ok? ==> Ids(rows) == Ids(old(rows)) && FindById(rows, id) == Some(r.value)
      ensures r.Err? ==> r == Err(UpdateRecipeFailed) && rows == old(rows)
    {
      var attempt: Result<Recipe>;
      if backend.Failing? {
        attempt := Err(backend.cause);
      } else {
        var doc := FindById(rows, id);
        if doc.Some? {
          ghost var i :| 0 <= i < |rows| && rows[i].id == id;
          FindByIdAt(rows, i);
          UpdateByIdAt(rows, i, input);
          ReplaceKeepsIds(rows, i, SetFields(rows[i], input));
          rows := UpdateById(rows, id, input);
          FindByIdAt(rows, i);
          attempt := Ok(SetFields(doc.value, input));
        } else {
          attempt := Found(doc);
        }
      }
      r := Rethrow(attempt, UpdateRecipeFailed);
    }
  }
}
