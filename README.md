# Recipe-App: a Dafny model of the recipe API and its list component

The application keeps recipes in a document database and serves them over a
GraphQL API. A React component lists them five at a time and edits them in a
shared dialog. This project models three parts of it in Dafny and proves
properties about them.

- **The typed contract** (`server/graphql/schema.js`), in `schema.dfy`. The
  `Recipe` output type, `AddRecipeInput` (all four fields required) and
  `UpdateRecipeInput` (all fields optional, `Option`) are datatypes. The
  `recipes(limit, offset)` arguments are optional. The coercion step that
  GraphQL runs on an input object before any resolver sees it is modelled
  too: a missing or null required field, or a null list element, rejects
  the input.
- **The Recipe collection** (`collection.dfy`). The Mongoose model is an
  insertion-ordered `seq<Recipe>` with unique ids. It has the operations the
  resolvers call: `find().limit().skip()`, `findById`, `save`,
  `findByIdAndDelete` and `findByIdAndUpdate` with `$set`.
- **The resolvers** (`server/graphql/resolvers.js`), in `resolvers.dfy`. The
  class `RecipeStore` holds the collection in a field. `Query.recipes` and
  `Query.recipe` only read it. The three mutations are methods that change it
  in place. Two outside influences become parameters:
  - `backend`: whether the database answers or throws;
  - `newId`: the id the database assigns to a new document.

  Each resolver body sits in one `try`. The resolver's own
  `'Recipe not found'` is thrown inside that `try`, so the caller cannot tell
  a missing id from a storage failure: both arrive as the same
  per-operation message.
- **The list component's logic** (`client/src/components/RecipeList.jsx`),
  split into three files:
  - `form_text.dfy`: `join('\n')` and `split('\n')` with JavaScript
    semantics. `"".split('\n')` is `[""]`, and a trailing empty piece is kept.
  - `recipe_cache.dfy`: the `cache.modify` callbacks run after a delete and
    after an add.
  - `recipe_list.dfy`: the query variables of a page, the Previous/Next disable
    rules, and the class `RecipeListView`. That class holds the component's
    `useState` values (`currentPage`, `openDialog`, `dialogType`,
    `selectedRecipe`, `formState`), and its methods are the handlers that step
    them.

Three behaviours of the code that are easy to miss:

- A missing recipe does not produce a distinguishable "not found" error. It
  produces the same generic message as a storage failure
  (`Resolvers.NotFoundIsIndistinguishable` and the `QueryRecipe`,
  `DeleteRecipe` and `UpdateRecipe` contracts).
- Neither the resolvers, the GraphQL schema nor the component checks that a
  name or a list line is non-empty. Splitting keeps empty pieces, so the input
  sent for the text `"flour\nsugar\n"` is `["flour","sugar",""]`
  (`FormText.FlourSugarExample`).
- If a recipe with no ingredients is edited and submitted without changes, it
  comes back with one empty ingredient (`RecipeList.EmptyListEditStoresEmptyLine`).

## Model

| member | source | states |
|---|---|---|
| Schema.CoerceList | server/graphql/schema.js:26-27 | a `[String!]` list value (the input lists here and at lines 33-34) is accepted exactly when no element is null, and then keeps its length and elements |
| Schema.CoerceAddInput | server/graphql/schema.js:23-28 | an `AddRecipeInput!` is accepted exactly when all four fields are present and neither list holds a null; the accepted fields are the ones sent |
| Schema.CoerceUpdateInput | server/graphql/schema.js:30-35 | an `UpdateRecipeInput!` is accepted exactly when every list that is present holds no null; omitted fields stay omitted and the given ones are kept |
| Schema.AddInputRoundTrip | server/graphql/schema.js:18-28 | every well-typed `AddRecipeInput` passed as `addRecipe`'s argument reaches the resolver unchanged |
| Schema.UpdateInputRoundTrip | server/graphql/schema.js:20-35 | every well-typed `UpdateRecipeInput` passed as `updateRecipe`'s argument reaches the resolver unchanged |
| Collection.FindPage | server/graphql/resolvers.js:7 | `find().limit(limit).skip(offset)` returns `min(limit, max(0, n - offset))` documents, namely those at positions `offset` onwards, in insertion order |
| Collection.ShortPageIsLast | server/graphql/resolvers.js:7 | a page shorter than `limit` reaches the end of the collection, and the page after it is empty |
| Collection.PageIsSlice | server/graphql/resolvers.js:7 | the page is the run of documents from `min(offset, n)` to `min(offset + limit, n)` |
| Collection.FirstPagesArePrefix | server/graphql/resolvers.js:5-8 | the first `p` pages, with offsets `0, limit, 2*limit, ...`, together are the first `min(p * limit, n)` documents, in order and each once |
| Collection.TwelveDocuments | server/graphql/resolvers.js:5-8 | of twelve documents A..L, `limit 5, offset 0` gives A..E and `offset 10` gives K, L |
| Collection.FindById | server/graphql/resolvers.js:16 | `findById` finds a document exactly when the id is stored, and the document found has that id |
| Collection.FindByIdAt | server/graphql/resolvers.js:16 | with unique ids, `findById` returns the document at the position holding the id |
| Collection.NewDocument | server/graphql/resolvers.js:28 | `new Recipe(input)`: a definition with no contract of its own. Its property is stated by the `AddRecipe` result contract (the new document has the assigned id and the input's four fields, and lookup by that id finds it) together with `SaveFresh` |
| Collection.SaveFresh | server/graphql/resolvers.js:28-29 | saving under a fresh id appends the document, keeps ids unique, adds exactly that id, and `findById` then returns the document |
| Collection.DeleteById | server/graphql/resolvers.js:38 | deleting an id that is not stored leaves the collection unchanged |
| Collection.DeleteByIdAt | server/graphql/resolvers.js:38 | with unique ids, deleting removes only the document with that id and keeps the others in order |
| Collection.RemoveAtKeepsUnique | server/graphql/resolvers.js:38 | after a delete the ids stay unique, and the id set loses exactly the deleted id |
| Collection.SetFields | server/graphql/resolvers.js:50 | `$set` never changes the id; an update that supplies nothing leaves the document as it was, and one that supplies all four fields gives exactly those values |
| Collection.SetFieldsChangesOnlySupplied | server/graphql/resolvers.js:48-52 | `$set` overwrites every supplied field and keeps the id and every omitted field; this spells out the definition field by field, and the substance is in `SetFieldsCompose` and `UpdateByIdAt` |
| Collection.SetFieldsIdentityAndIdempotent | server/graphql/resolvers.js:50 | an update that supplies nothing changes nothing; applying the same update twice equals applying it once |
| Collection.SetFieldsCompose | server/graphql/resolvers.js:50 | two updates in turn equal one merged update in which the later values win |
| Collection.UpdateById | server/graphql/resolvers.js:48-52 | `findByIdAndUpdate` keeps the number of documents and every id in place; an id that is not stored changes nothing |
| Collection.UpdateByIdAt | server/graphql/resolvers.js:48-52 | with unique ids, updating replaces only the document with that id, by its `$set` result |
| Collection.ReplaceKeepsIds | server/graphql/resolvers.js:48-52 | an update keeps the ids unique and the id set unchanged |
| Resolvers.Rethrow | server/graphql/resolvers.js:19-22 | the `catch` that turns any error into the operation's message: a definition with no contract of its own. Its property is stated by `NotFoundIsIndistinguishable` and the `Err` clauses of `QueryRecipes`, `QueryRecipe`, `AddRecipe`, `DeleteRecipe` and `UpdateRecipe` (each such result is exactly the operation's message) |
| Resolvers.Found | server/graphql/resolvers.js:17 | `if (!recipe) throw new Error('Recipe not found')` (also lines 39 and 53): a definition with no contract of its own. Its property is stated by `NotFoundIsIndistinguishable` and the `Err` cases of `QueryRecipe`, `DeleteRecipe` and `UpdateRecipe`: an absent id ends in the operation's generic message |
| Resolvers.NotFoundIsIndistinguishable | server/graphql/resolvers.js:17-21 | a 'Recipe not found' thrown inside the `try` and any storage failure reach the caller as the same error |
| Resolvers.RecipeStore.constructor | server/graphql/resolvers.js:1 | a new store holds no documents, so its ids are trivially unique |
| Resolvers.RecipeStore.QueryRecipes | server/graphql/resolvers.js:5-12 | `recipes` fails, with 'Failed to fetch recipes', only when the database fails; otherwise it returns the page at `offset` of size at most `limit`, with defaults 5 and 0 (no arguments: the first five); the collection is not modified |
| Resolvers.RecipeStore.QueryRecipe | server/graphql/resolvers.js:14-22 | `recipe(id)` returns the stored document with that id exactly when the database answers and the id is stored; every other outcome is 'Failed to fetch recipe' |
| Resolvers.RecipeStore.AddRecipe | server/graphql/resolvers.js:26-34 | on success, the new document has the assigned id and the input's fields, is appended, can be looked up by its id, and ids stay unique; on a database failure or a taken id, 'Failed to add recipe' and no change |
| Resolvers.RecipeStore.DeleteRecipe | server/graphql/resolvers.js:36-44 | for a stored id, returns the document as it was stored and removes only that document, keeping the others in order; for an absent id or a database failure, 'Failed to delete recipe' and no change |
| Resolvers.RecipeStore.UpdateRecipe | server/graphql/resolvers.js:46-58 | for a stored id, returns the `$set` result (the post-update document) and replaces only that document; for an absent id or a database failure, 'Failed to update recipe' and no change |
| FormText.Join | client/src/components/RecipeList.jsx:141-142 | `join('\n')` of a non-empty list of lines without line breaks has exactly one line break fewer than the list has lines |
| FormText.FirstNewline | client/src/components/RecipeList.jsx:173-174 | the position where `split` cuts: a line break with none before it |
| FormText.Split | client/src/components/RecipeList.jsx:173-174 | `split('\n')` always gives at least one piece, and the first piece holds no line break |
| FormText.SplitCount | client/src/components/RecipeList.jsx:173-174 | `split('\n')` gives exactly one more piece than the text has line breaks |
| FormText.SplitPiecesHaveNoNewline | client/src/components/RecipeList.jsx:173-174 | no piece contains a line break |
| FormText.SplitWithoutNewline | client/src/components/RecipeList.jsx:173-174 | text without a line break splits into itself alone |
| FormText.SplitAfterLine | client/src/components/RecipeList.jsx:173-174 | a line without line breaks, then `'\n'`, then the rest: the line is the first piece and the rest splits on its own |
| FormText.JoinSplit | client/src/components/RecipeList.jsx:173-174 | every text comes back unchanged when it is split and then joined |
| FormText.SplitJoin | client/src/components/RecipeList.jsx:141-142 | a non-empty list of lines without line breaks comes back unchanged when it is joined and then split |
| FormText.EmptyListBecomesOneEmptyLine | client/src/components/RecipeList.jsx:141-142 | the empty list joins to `""`, which splits into `[""]` |
| FormText.TrailingNewlineKept | client/src/components/RecipeList.jsx:173-174 | two lines each followed by a line break split into the two lines and a trailing empty piece |
| FormText.FlourSugarExample | client/src/components/RecipeList.jsx:173-174 | `"flour\nsugar\n"` splits into `["flour","sugar",""]` |
| RecipeCache.RecipeRef | client/src/components/RecipeList.jsx:81 | the `Recipe:<id>` cache key: a definition with no contract of its own. Its property is stated by `RecipeRefInjective` (distinct ids, distinct keys) and `DeleteKeepsOthers` |
| RecipeCache.RecipeRefInjective | client/src/components/RecipeList.jsx:81 | distinct ids have distinct `Recipe:<id>` cache keys |
| RecipeCache.Without | client/src/components/RecipeList.jsx:81 | the filter keeps exactly the entries other than the dropped reference, each as often as before, and never lengthens the list |
| RecipeCache.WithoutConcat | client/src/components/RecipeList.jsx:81 | the filter distributes over concatenation, so the kept entries stay in their original order |
| RecipeCache.WithoutSingle | client/src/components/RecipeList.jsx:81 | a one-entry list loses its entry exactly when that entry is the dropped reference |
| RecipeCache.WithoutAbsent | client/src/components/RecipeList.jsx:81 | a list without the dropped reference is left unchanged |
| RecipeCache.Existing | client/src/components/RecipeList.jsx:80 | the callback's `existingRecipes = []` default parameter (also line 93), with `None` for a call without a cached value: a definition with no contract of its own. `AfterDelete` and `AfterAdd` are stated over it, so their contracts cover both the cached and that default case |
| RecipeCache.AfterDelete | client/src/components/RecipeList.jsx:80-81 | after a delete the cached list holds no reference to the deleted recipe and keeps every other entry |
| RecipeCache.AfterAdd | client/src/components/RecipeList.jsx:93-106 | after an add the cached list is the previous entries unchanged, followed by exactly one reference to the new recipe |
| RecipeCache.DeleteUndoesAdd | client/src/components/RecipeList.jsx:80-106 | deleting a recipe that was just added, and was not cached before, restores the previous list |
| RecipeCache.DeleteKeepsOthers | client/src/components/RecipeList.jsx:81 | deleting one recipe never removes another recipe's reference |
| RecipeList.VariablesFor | client/src/components/RecipeList.jsx:73 | the query variables of a page: a definition with no contract of its own. Its property is stated by `VariablesForOffset`, `PageShown` and `PagesVisitedArePrefix` |
| RecipeList.VariablesForOffset | client/src/components/RecipeList.jsx:73 | the query for page `p` asks for 5 recipes after `p` whole pages of 5 |
| RecipeList.PreviousDisabled | client/src/components/RecipeList.jsx:254 | `disabled={currentPage === 0}`: a definition with no contract of its own. Its property is stated by `RecipeListView.ClickPrevious`, which keeps `currentPage >= 0` |
| RecipeList.NextDisabled | client/src/components/RecipeList.jsx:261 | `disabled={data.recipes.length < recipesPerPage}`: a definition with no contract of its own. Its property is stated by `NextDisabledIffLastPage` (disabled exactly on a page that ends the collection before `5p + 5`) |
| RecipeList.FormOf | client/src/components/RecipeList.jsx:138-143 | the form keeps the name and the description, and each list of lines without line breaks, if non-empty, splits back from its text |
| RecipeList.InputOf | client/src/components/RecipeList.jsx:170-175 | the input keeps the name and the description, and each list has one entry more than its text has line breaks and joins back to that text |
| RecipeList.AsUpdate | client/src/components/RecipeList.jsx:180 | the add-shaped input passed to `updateRecipe` supplies all four fields, so `$set` gives any document exactly the input's fields |
| RecipeList.PagesVisitedArePrefix | client/src/components/RecipeList.jsx:70-73 | stepping with Next (lines 186-188) from page 0 to page `p`, the pages shown together are the first `min(5p, n)` recipes, in order and each once |
| RecipeList.PageShown | client/src/components/RecipeList.jsx:70-73 | the query for page `p` has limit 5 and offset `5p`, and it returns the documents from position `5p` to `min(5p+5, n)` |
| RecipeList.NextDisabledIffLastPage | client/src/components/RecipeList.jsx:258-263 | Next is disabled exactly when page `p` reaches the end of the collection before `5p+5` |
| RecipeList.FullLastPageLeadsToEmptyPage | client/src/components/RecipeList.jsx:258-263 | with exactly five recipes Next stays enabled, and the page it leads to is empty |
| RecipeList.EditRoundTrip | client/src/components/RecipeList.jsx:135-184 | for non-empty lists whose lines have no line breaks, the input submitted after `handleEdit` with an unchanged form carries the recipe's four fields exactly |
| RecipeList.UnchangedEditKeepsDocument | client/src/components/RecipeList.jsx:180 | such an unchanged edit, applied by `$set`, leaves the stored document as it was |
| RecipeList.EmptyListEditStoresEmptyLine | client/src/components/RecipeList.jsx:141 | an unchanged edit of a recipe with no ingredients stores the single ingredient `""` |
| RecipeList.RecipeListView.constructor | client/src/components/RecipeList.jsx:69-126 | the initial state: page 0, dialog closed, mode `''`, no selection, empty form |
| RecipeList.RecipeListView.HandleEdit | client/src/components/RecipeList.jsx:135-145 | sets mode 'Edit', selects the recipe, fills the form with its fields and its lists joined, and opens the dialog |
| RecipeList.RecipeListView.HandleAdd | client/src/components/RecipeList.jsx:147-156 | sets mode 'Add', empties every form field and opens the dialog |
| RecipeList.RecipeListView.HandleDialogClose | client/src/components/RecipeList.jsx:158-167 | closes the dialog, clears the selection and sets every form field to `''`; the mode is kept |
| RecipeList.RecipeListView.HandleDialogSubmit | client/src/components/RecipeList.jsx:169-184 | mode 'Add' issues `addRecipe` with the four form fields split; mode 'Edit' issues `updateRecipe` with the selected id and the same four fields; any other mode issues nothing; every case then closes the dialog |
| RecipeList.RecipeListView.HandleNextPage | client/src/components/RecipeList.jsx:186-188 | increments the page and changes nothing else |
| RecipeList.RecipeListView.HandlePreviousPage | client/src/components/RecipeList.jsx:190-192 | decrements the page and changes nothing else |
| RecipeList.RecipeListView.ClickPrevious | client/src/components/RecipeList.jsx:251-257 | Previous is disabled on page 0, so clicking it never takes the page below 0 |
| RecipeList.RecipeListView.ClickNext | client/src/components/RecipeList.jsx:258-264 | Next is disabled when fewer than 5 recipes are shown; otherwise a click moves to the next page |

## Left out

- `server/index.js` (environment, database connection, server start) is not part of this model. It only wires the parts together.
- `models/Recipe` is not part of this model. Any validation its schema does on `save` or on update is not modelled, and neither is the ObjectId format or how ids are generated (the id is the parameter `newId`).
- MongoDB's handling of `limit(0)` (no bound) or of a negative limit (at most |limit| documents, in one batch), and of a negative `skip`, is not modelled. `QueryRecipes` requires a given `limit` to be positive and a given `offset` to be non-negative. GraphQL's 32-bit `Int` range is not modelled either.
- A storage failure is modelled as one that takes no effect before it is reported. A write that commits but then fails to report back is not modelled.
- `console.error` logging and the `async`/`await` suspension of the resolvers are not modelled: they are I/O and cooperative concurrency.
- GraphQL execution itself is not modelled. The model does not show how a thrown resolver error becomes a `null` field plus an error entry in the response. The resolvers' `Result` stands for that outcome.
- `Resolvers.RecipeStore.QueryRecipes`: an explicit `null` `limit` or `offset` is treated as an omitted one and gets the default. In the source the defaults of `{ limit = 5, offset = 0 }` replace only an omitted argument, so a `null` reaches `limit` or `skip` as it is; what the database does with it is not modelled.
- `Schema.CoerceUpdateInput`: a field that is omitted and a field that is explicitly `null` are both `None`. An explicit `null` would reach `$set` and clear the field; the model does not distinguish the two.
- React rendering is not modelled: JSX, the MUI components, the loading and error branches, and the `onChange` bindings that edit `formState` one field at a time.
- The Apollo runtime is not modelled: the network behaviour of `useQuery` and `useMutation`, and when `refetch` and `onCompleted` run. The page a query shows is related to the collection by `RecipeList.PageShown`.
- `handleDelete` only forwards the id to the `deleteRecipe` mutation. It is not modelled separately.
- `RecipeCache.AfterDelete` and `RecipeCache.AfterAdd`: for `None` they give the result of the callbacks' `[]` default. At run time `cache.modify` calls a callback only for a field that is already cached, so a `recipes` field that is not cached stays absent, and the model does not capture that.
- Apollo's normalized cache is not modelled beyond the `recipes` field's list of references. `cache.modify` applies the callback to every stored argument variant of that field; the model shows one list. `cache.writeFragment` is modelled only by the reference it returns.
- `RecipeList.RecipeListView.HandleDialogSubmit`: it requires the dialog to be open, because the Submit button exists only inside the open dialog. In the source, submitting in 'Edit' mode with no selection would throw on `selectedRecipe.id`; that state cannot be reached while the dialog is open (`RecipeListView.Valid`). A click on Submit while the dialog is fading out after closing, if the button is still mounted then, would see the dialog closed, and in 'Edit' mode would throw on the cleared selection; the model does not cover such a click.
