/**
 * The non-rendering logic of the `RecipeList` component: the query variables of
 * the current page, the rules that disable Previous and Next, the shared Add/Edit
 * dialog and the mutation each submit issues.
 */
module RecipeList {
  import opened Wrappers
  import opened Schema
  import opened Collection
  import opened FormText

  /** `recipesPerPage`. */
  const RecipesPerPage := 5

  /** The text fields of the dialog. */
  datatype FormState = FormState(name: string, description: string, ingredients: string, instructions: string)

  const EmptyForm := FormState("", "", "", "")

  /** The variables of the `GetRecipes` query. */
  datatype QueryVariables = QueryVariables(limit: int, offset: int)

  /** A mutation the component issues. */
  datatype MutationRequest =
    | AddRequest(input: AddRecipeInput)
    | UpdateRequest(id: Id, changes: UpdateRecipeInput)

  /** The variables for page `page`: a fixed limit and an offset of whole pages. */
  function VariablesFor(page: int): QueryVariables {
    QueryVariables(RecipesPerPage, page * RecipesPerPage)
  }

  /** Page `page` asks for one page of recipes, after `page` whole pages. */
  lemma VariablesForOffset(page: nat)
    ensures VariablesFor(page) == QueryVariables(RecipesPerPage, PageOffset(page, RecipesPerPage))
  {
    PageOffsetIsProduct(page, RecipesPerPage);
  }

  /** `disabled={currentPage === 0}`. */
  predicate PreviousDisabled(page: int) {
    page == 0
  }

  /** `disabled={data.recipes.length < recipesPerPage}`. */
  predicate NextDisabled(shown: nat) {
    shown < RecipesPerPage
  }

  /** The form `handleEdit` fills in: each list as one line per entry. */
  function FormOf(recipe: Recipe): (form: FormState)
    ensures form.name == recipe.name && form.description == recipe.description
    ensures |recipe.ingredients| > 0 && (forall k :: 0 <= k < |recipe.ingredients| ==> Newline !in recipe.ingredients[k]) ==>
      Split(form.ingredients) == recipe.ingredients
    ensures |recipe.instructions| > 0 && (forall k :: 0 <= k < |recipe.instructions| ==> Newline !in recipe.instructions[k]) ==>
      Split(form.instructions) == recipe.instructions
  {
    SplitJoin(recipe.ingredients);
    SplitJoin(recipe.instructions);
    FormState(recipe.name, recipe.description, Join(recipe.ingredients), Join(recipe.instructions))
  }

  /** The `input` `handleDialogSubmit` builds: each multi-line field split at line breaks, one entry per line. */
  function InputOf(form: FormState): (input: AddRecipeInput)
    ensures input.name == form.name && input.description == form.description
    ensures |input.ingredients| == NewlineCount(form.ingredients) + 1 && Join(input.ingredients) == form.ingredients
    ensures |input.instructions| == NewlineCount(form.instructions) + 1 && Join(input.instructions) == form.instructions
  {
    SplitCount(form.ingredients);
    SplitCount(form.instructions);
    JoinSplit(form.ingredients);
    JoinSplit(form.instructions);
    AddRecipeInput(form.name, form.description, Split(form.ingredients), Split(form.instructions))
  }

  /** The same `input` object passed as an `UpdateRecipeInput`: applied by `$set`, it gives any document the input's four fields. */
  function AsUpdate(input: AddRecipeInput): (u: UpdateRecipeInput)
    ensures forall doc: Recipe {:trigger SetFields(doc, u)} :: SetFields(doc, u) == NewDocument(doc.id, input)
  {
    UpdateRecipeInput(Some(input.name), Some(input.description), Some(input.ingredients), Some(input.instructions))
  }

  /** The pages the component shows for pages `0` to `p - 1`, one after the other. */
  function PagesVisited(rows: seq<Recipe>, p: nat): seq<Recipe> {
    if p == 0 then [] else PagesVisited(rows, p - 1) + FindPage(rows, VariablesFor(p - 1).limit, VariablesFor(p - 1).offset)
  }

  /** Stepping with Next from page 0 to page `p` shows the first `5p` recipes, each once and in order. */
  lemma PagesVisitedArePrefix(rows: seq<Recipe>, p: nat)
    ensures PagesVisited(rows, p) == rows[..Min(p * RecipesPerPage, |rows|)]
  {
    PagesVisitedAreFirstPages(rows, p);
    FirstPagesArePrefix(rows, RecipesPerPage, p);
  }

  lemma {:induction false} PagesVisitedAreFirstPages(rows: seq<Recipe>, p: nat)
    ensures PagesVisited(rows, p) == FirstPages(rows, RecipesPerPage, p)
  {
    if p > 0 {
      PagesVisitedAreFirstPages(rows, p - 1);
      VariablesForOffset(p - 1);
      var v := VariablesFor(p - 1);
      assert v.limit == RecipesPerPage && v.offset == PageOffset(p - 1, RecipesPerPage);
      assert PagesVisited(rows, p) == PagesVisited(rows, p - 1) + FindPage(rows, v.limit, v.offset);
    }
  }

  /** The page the query for `page` returns: the documents from `page * 5` on, at most five of them. */
  lemma PageShown(rows: seq<Recipe>, page: nat)
    ensures var v := VariablesFor(page);
      v.limit == 5 && v.offset == page * 5 &&
      FindPage(rows, v.limit, v.offset) == rows[Min(page * 5, |rows|)..Min(page * 5 + 5, |rows|)]
  {
  }

  /** Next is disabled exactly on a page that reaches the end of the collection with room to spare. */
  lemma NextDisabledIffLastPage(rows: seq<Recipe>, page: nat)
    ensures NextDisabled(|FindPage(rows, RecipesPerPage, page * RecipesPerPage)|) <==> |rows| < page * 5 + 5
  {
  }

  /** With exactly five recipes Next stays enabled, and the page it leads to is empty. */
  lemma FullLastPageLeadsToEmptyPage(rows: seq<Recipe>)
    requires |rows| == 5
    ensures !NextDisabled(|FindPage(rows, RecipesPerPage, 0)|)
    ensures FindPage(rows, RecipesPerPage, VariablesFor(1).offset) == []
  {
  }

  /** Editing a recipe whose lists are non-empty and free of line breaks, then submitting, sends its fields back exactly. */
  lemma EditRoundTrip(recipe: Recipe)
    requires |recipe.ingredients| > 0 && forall k :: 0 <= k < |recipe.ingredients| ==> Newline !in recipe.ingredients[k]
    requires |recipe.instructions| > 0 && forall k :: 0 <= k < |recipe.instructions| ==> Newline !in recipe.instructions[k]
    ensures InputOf(FormOf(recipe)) ==
      AddRecipeInput(recipe.name, recipe.description, recipe.ingredients, recipe.instructions)
  {
    SplitJoin(recipe.ingredients);
    SplitJoin(recipe.instructions);
  }

  /** Such an unchanged edit leaves the stored document as it was. */
  lemma UnchangedEditKeepsDocument(recipe: Recipe)
    requires |recipe.ingredients| > 0 && forall k :: 0 <= k < |recipe.ingredients| ==> Newline !in recipe.ingredients[k]
    requires |recipe.instructions| > 0 && forall k :: 0 <= k < |recipe.instructions| ==> Newline !in recipe.instructions[k]
    ensures SetFields(recipe, AsUpdate(InputOf(FormOf(recipe)))) == recipe
  {
    EditRoundTrip(recipe);
  }

  /** An unchanged edit of a recipe with no ingredients stores one empty ingredient. */
  lemma EmptyListEditStoresEmptyLine(recipe: Recipe)
    requires recipe.ingredients == []
    ensures SetFields(recipe, AsUpdate(InputOf(FormOf(recipe)))).ingredients == [""]
  {
    EmptyListBecomesOneEmptyLine();
  }

  /** The component's state. */
  class RecipeListView {
    var currentPage: int
    var openDialog: bool
    var dialogType: string
    var selectedRecipe: Option<Recipe>
    var formState: FormState

    /** The page is never negative, and an open Edit dialog has a recipe to edit. */
    ghost predicate Valid()
      reads this
    {
      currentPage >= 0 && (openDialog && dialogType == "Edit" ==> selectedRecipe.Some?)
    }

    /** The initial values of the `useState` hooks. */
    constructor ()
      ensures Valid()
      ensures currentPage == 0 && !openDialog && dialogType == "" && selectedRecipe == None && formState == EmptyForm
    {
      currentPage := 0;
      openDialog := false;
      dialogType := "";
      selectedRecipe := None;
      formState := EmptyForm;
    }

    /** `handleEdit`: open the dialog in Edit mode, filled in from `recipe`. */
    method HandleEdit(recipe: Recipe)
      requires Valid()
      modifies this
      ensures Valid()
      ensures dialogType == "Edit" && selectedRecipe == Some(recipe) && formState == FormOf(recipe) && openDialog
      ensures currentPage == old(currentPage)
    {
      dialogType := "Edit";
      selectedRecipe := Some(recipe);
      formState := FormOf(recipe);
      openDialog := true;
    }

    /** `handleAdd`: open the dialog in Add mode with an empty form; the selected recipe is not touched. */
    method HandleAdd()
      requires Valid()
      modifies this
      ensures Valid()
      ensures dialogType == "Add" && formState == EmptyForm && openDialog
      ensures selectedRecipe == old(selectedRecipe) && currentPage == old(currentPage)
    {
      dialogType := "Add";
      formState := EmptyForm;
      openDialog := true;
    }

    /** `handleDialogClose`: close the dialog, forget the selection and empty the form; the mode stays. */
    method HandleDialogClose()
      requires Valid()
      modifies this
      ensures Valid()
      ensures !openDialog && selectedRecipe == None && formState == EmptyForm
      ensures dialogType == old(dialogType) && currentPage == old(currentPage)
    {
      openDialog := false;
      selectedRecipe := None;
      formState := EmptyForm;
    }

    /**
     * `handleDialogSubmit`: in Add mode issue `addRecipe` with the form's four fields, in
     * Edit mode `updateRecipe` of the selected recipe with the same four fields, in any
     * other mode nothing; then close the dialog. Only a click while the dialog is
     * open is modelled; a click during its exit transition is not.
     */
    method HandleDialogSubmit() returns (req: Option<MutationRequest>)
      requires Valid() && openDialog
      modifies this
      ensures Valid()
      ensures old(dialogType) == "Add" ==> req == Some(AddRequest(InputOf(old(formState))))
      ensures old(dialogType) == "Edit" ==>
        req == Some(UpdateRequest(old(selectedRecipe).value.id, AsUpdate(InputOf(old(formState)))))
      ensures old(dialogType) != "Add" && old(dialogType) != "Edit" ==> req == None
      ensures !openDialog && selectedRecipe == None && formState == EmptyForm
      ensures dialogType == old(dialogType) && currentPage == old(currentPage)
    {
      var input := InputOf(formState);
      if dialogType == "Add" {
        req := Some(AddRequest(input));
      } else if dialogType == "Edit" {
        req := Some(UpdateRequest(selectedRecipe.value.id, AsUpdate(input)));
      } else {
        req := None;
      }
      HandleDialogClose();
    }

    /** `handleNextPage`. */
    method HandleNextPage()
      modifies this
      ensures currentPage == old(currentPage) + 1
      ensures openDialog == old(openDialog) && dialogType == old(dialogType)
      ensures selectedRecipe == old(selectedRecipe) && formState == old(formState)
    {
      currentPage := currentPage + 1;
    }

    /** `handlePreviousPage`: on its own it does not stop at page 0. */
    method HandlePreviousPage()
      modifies this
      ensures currentPage == old(currentPage) - 1
      ensures openDialog == old(openDialog) && dialogType == old(dialogType)
      ensures selectedRecipe == old(selectedRecipe) && formState == old(formState)
    {
      currentPage := currentPage - 1;
    }

    /** A click on Previous: a disabled button does not call its handler, so the page stays non-negative. */
    method ClickPrevious()
      requires Valid()
      modifies this
      ensures Valid()
      ensures currentPage == if old(currentPage) == 0 then 0 else old(currentPage) - 1
      ensures openDialog == old(openDialog) && dialogType == old(dialogType)
      ensures selectedRecipe == old(selectedRecipe) && formState == old(formState)
    {
      if !PreviousDisabled(currentPage) {
        HandlePreviousPage();
      }
    }

    /** A click on Next while the current page shows `shown` recipes. */
    method ClickNext(shown: nat)
      requires Valid()
      modifies this
      ensures Valid()
      ensures currentPage == if NextDisabled(shown) then old(currentPage) else old(currentPage) + 1
      ensures openDialog == old(openDialog) && dialogType == old(dialogType)
      ensures selectedRecipe == old(selectedRecipe) && formState == old(formState)
    {
      if !NextDisabled(shown) {
        HandleNextPage();
      }
    }
  }
}
