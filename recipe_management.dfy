/**
 * The recipe administration screen: its access check, the loading and cleaning of every
 * recipe, and the search by creator.
 */
module RecipeManagement {
  import opened Wrappers
  import opened JsValue
  import JsText
  import JsArray
  import AiText
  import opened Http
  import opened Session

  /** `checkAdminAccess`: only super administrators and inventory administrators may load recipes. */
  function CheckAdminAccess(role: Option<string>): (r: Access)
    ensures r == Granted <==> role == Some(SuperAdmin) || role == Some(AdminInventori)
  {
    if role != Some(SuperAdmin) && role != Some(AdminInventori) then Denied else Granted
  }

  /**
   * The recipe list of a reply: the payload when it is an array, else a truthy `.recipes`, else
   * the payload itself. Reading `.recipes` of null throws (None).
   */
  function RecipeList(data: Value): (r: Option<Value>)
    ensures r.None? <==> data.Null? || data.Undefined?
    ensures data.Arr? ==> r == Some(data)
    ensures data.Obj? && Truthy(Field(data, "recipes")) ==> r == Some(Field(data, "recipes"))
    ensures !data.Arr? && !data.Null? && !data.Undefined? && !(data.Obj? && Truthy(Field(data, "recipes"))) ==> r == Some(data)
  {
    if data.Arr? then Some(data)
    else
      match Prop(data, "recipes")
      case None => None
      case Some(v) => if Truthy(v) then Some(v) else Some(data)
  }

  const LoadError := "Failed to load recipes"

  datatype Load = Loaded(recipes: seq<Value>) | LoadFailed(message: string)

  /** `fetchRecipes` after access was granted: every recipe text cleaned, every other field kept. */
  function FetchRecipes(reply: Reply): (r: Load)
    ensures r.LoadFailed? ==> r.message == LoadError
    ensures r.Loaded? <==>
      && reply.Answered?
      && RecipeList(reply.response.data).Some?
      && RecipeList(reply.response.data).value.Arr?
      && AiText.CleanList(RecipeList(reply.response.data).value.items, "recipe").Some?
    ensures r.Loaded? ==> r.recipes == AiText.CleanList(RecipeList(reply.response.data).value.items, "recipe").value
  {
    if reply.Failed? then LoadFailed(LoadError)
    else
      match RecipeList(reply.response.data)
      case None => LoadFailed(LoadError)
      case Some(list) =>
        if !list.Arr? then LoadFailed(LoadError)
        else
          match AiText.CleanList(list.items, "recipe")
          case None => LoadFailed(LoadError)
          case Some(cleaned) => Loaded(cleaned)
  }

  /** `recipe.createdBy.toLowerCase().includes(text.toLowerCase())`; a creator that is not a string throws. */
  function CreatorTest(recipe: Value, text: string): (r: Option<bool>)
    ensures r.None? <==> !(recipe.Obj? && Field(recipe, "createdBy").Str?)
    ensures r.Some? ==>
      (r.value <==> exists i :: JsText.OccursAt(JsText.Lower(Field(recipe, "createdBy").s), JsText.Lower(text), i))
  {
    match Prop(recipe, "createdBy")
    case None => None
    case Some(creator) => if creator.Str? then Some(JsText.Includes(JsText.Lower(creator.s), JsText.Lower(text))) else None
  }

  function CreatorMatches(text: string): Value -> Option<bool> {
    (recipe: Value) => CreatorTest(recipe, text)
  }

  /**
   * The list `handleSearch` shows: everything for a blank search, otherwise the recipes whose
   * creator contains the untrimmed text, ignoring case, in list order. None when the filter throws.
   */
  function SearchRecipes(recipes: seq<Value>, text: string): (r: Option<seq<Value>>)
    ensures JsText.AllSpace(text) ==> r == Some(recipes)
    ensures !JsText.AllSpace(text) ==> (r.Some? <==> JsArray.AllDefined(recipes, CreatorMatches(text)))
    ensures r.Some? ==> JsArray.IsSubsequence(r.value, recipes)
    ensures r.Some? && !JsText.AllSpace(text) ==>
      && (forall i :: 0 <= i < |r.value| ==> CreatorTest(r.value[i], text) == Some(true))
      && (forall i :: 0 <= i < |recipes| && CreatorTest(recipes[i], text) == Some(true) ==> recipes[i] in r.value)
    ensures r.Some? && !JsText.AllSpace(text) ==>
      forall x :: multiset(r.value)[x] == if CreatorTest(x, text) == Some(true) then multiset(recipes)[x] else 0
  {
    if JsText.Trim(text) == "" then
      JsArray.SubsequenceReflexive(recipes);
      Some(recipes)
    else
      var p := CreatorMatches(text);
      var r := JsArray.FilterChecked(recipes, p);
      if r.None? then r
      else
        assert forall x :: JsArray.Passes(p)(x) <==> CreatorTest(x, text) == Some(true);
        forall x ensures multiset(r.value)[x] == if CreatorTest(x, text) == Some(true) then multiset(recipes)[x] else 0 {
          JsArray.FilterCount(recipes, JsArray.Passes(p), x);
        }
        r
  }

  /** The screen's list state. */
  class RecipeSearch {
    var recipes: seq<Value>
    var filteredRecipes: seq<Value>
    var searchQuery: string

    constructor ()
      ensures recipes == [] && filteredRecipes == [] && searchQuery == ""
    {
      recipes, filteredRecipes, searchQuery := [], [], "";
    }

    /** A successful load replaces both lists; a failed one changes nothing. */
    method ApplyLoad(reply: Reply)
      modifies this`recipes, this`filteredRecipes
      ensures FetchRecipes(reply).Loaded? ==> recipes == filteredRecipes == FetchRecipes(reply).recipes
      ensures FetchRecipes(reply).LoadFailed? ==> recipes == old(recipes) && filteredRecipes == old(filteredRecipes)
    {
      var load := FetchRecipes(reply);
      if load.Loaded? {
        recipes, filteredRecipes := load.recipes, load.recipes;
      }
    }

    /**
     * `handleSearch`: the query is stored first. A throwing filter is an uncaught TypeError (the
     * handler has no `catch`): it is reported in `uncaught` and the shown list stays as it was.
     */
    method HandleSearch(text: string) returns (uncaught: bool)
      modifies this`searchQuery, this`filteredRecipes
      ensures searchQuery == text
      ensures uncaught <==> SearchRecipes(recipes, text).None?
      ensures SearchRecipes(recipes, text).Some? ==> filteredRecipes == SearchRecipes(recipes, text).value
      ensures SearchRecipes(recipes, text).None? ==> filteredRecipes == old(filteredRecipes)
    {
      searchQuery := text;
      uncaught := false;
      match SearchRecipes(recipes, text)
      case None => uncaught := true;
      case Some(shown) => filteredRecipes := shown;
    }
  }
}
