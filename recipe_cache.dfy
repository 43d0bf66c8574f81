/**
 * The client cache's `recipes` field after a mutation: the `update` callbacks that
 * `cache.modify` runs on the cached list of recipe references. A reference is the
 * cache key `Recipe:<id>`.
 */
module RecipeCache {
  import opened Wrappers
  import opened Schema

  /** A normalized cache reference (`__ref`). */
  type Ref = string

  const RefPrefix := "Recipe:"

  /** The cache key of the recipe with this id. */
  function RecipeRef(id: Id): Ref {
    RefPrefix + id
  }

  /** Distinct recipes have distinct cache keys. */
  lemma RecipeRefInjective(a: Id, b: Id)
    ensures RecipeRef(a) == RecipeRef(b) ==> a == b
  {
    if RecipeRef(a) == RecipeRef(b) {
      assert a == RecipeRef(a)[|RefPrefix|..];
      assert b == RecipeRef(b)[|RefPrefix|..];
    }
  }

  /** `refs.filter(r => r !== drop)`. */
  function Without(refs: seq<Ref>, drop: Ref): (r: seq<Ref>)
    ensures forall x :: x in r <==> x in refs && x != drop
    ensures forall x :: multiset(r)[x] == if x == drop then 0 else multiset(refs)[x]
    ensures |r| <= |refs|
  {
    if refs == [] then []
    else
      assert refs == [refs[0]] + refs[1..];
      if refs[0] == drop then Without(refs[1..], drop)
      else [refs[0]] + Without(refs[1..], drop)
  }

  /** Filtering distributes over concatenation, so the kept entries stay in their original order. */
  lemma {:induction false} WithoutConcat(a: seq<Ref>, b: seq<Ref>, drop: Ref)
    ensures Without(a + b, drop) == Without(a, drop) + Without(b, drop)
  {
    if a == [] {
      assert a + b == b;
    } else {
      assert (a + b)[0] == a[0];
      assert (a + b)[1..] == a[1..] + b;
      WithoutConcat(a[1..], b, drop);
    }
  }

  /** A one-entry list loses its entry exactly when it is the dropped reference. */
  lemma WithoutSingle(x: Ref, drop: Ref)
    ensures Without([x], drop) == if x == drop then [] else [x]
  {
  }

  /**
   * The callback's `existingRecipes = []` default parameter: `None` stands for a call
   * without a cached value. `cache.modify` only calls the callback for a field that is
   * already cached, so this default never applies at run time.
   */
  function Existing(cached: Option<seq<Ref>>): seq<Ref> {
    cached.GetOr([])
  }

  /** The `deleteRecipe` update: drop every reference to the deleted recipe and keep the others in order. */
  function AfterDelete(cached: Option<seq<Ref>>, deleted: Id): (r: seq<Ref>)
    ensures RecipeRef(deleted) !in r
    ensures forall x :: x in r <==> x in Existing(cached) && x != RecipeRef(deleted)
    ensures |r| <= |Existing(cached)|
  {
    Without(Existing(cached), RecipeRef(deleted))
  }

  /** The `addRecipe` update: the cached references unchanged, then one reference to the added recipe. */
  function AfterAdd(cached: Option<seq<Ref>>, added: Recipe): (r: seq<Ref>)
    ensures |r| == |Existing(cached)| + 1
    ensures r[..|Existing(cached)|] == Existing(cached)
    ensures r[|Existing(cached)|] == RecipeRef(added.id)
  {
    Existing(cached) + [RecipeRef(added.id)]
  }

  /** Deleting a recipe that was just added, and was not cached before, restores the cached list. */
  lemma DeleteUndoesAdd(existing: seq<Ref>, added: Recipe)
    requires RecipeRef(added.id) !in existing
    ensures AfterDelete(Some(AfterAdd(Some(existing), added)), added.id) == existing
  {
    var drop := RecipeRef(added.id);
    WithoutConcat(existing, [drop], drop);
    WithoutAbsent(existing, drop);
  }

  /** A list without the dropped reference is left as it is. */
  lemma {:induction false} WithoutAbsent(refs: seq<Ref>, drop: Ref)
    requires drop !in refs
    ensures Without(refs, drop) == refs
  {
    if refs != [] {
      WithoutAbsent(refs[1..], drop);
    }
  }

  /** Deleting one recipe never removes another recipe's reference. */
  lemma DeleteKeepsOthers(cached: Option<seq<Ref>>, deleted: Id, other: Id)
    requires other != deleted
    ensures RecipeRef(other) in AfterDelete(cached, deleted) <==> RecipeRef(other) in Existing(cached)
  {
    RecipeRefInjective(other, deleted);
  }
}
