/**
 * The user's recipe history: the missing-token guard, the loading and cleaning of the
 * recipes, deletion by id, and the ingredients line of each card.
 */
module HistoryScreen {
  import opened Wrappers
  import opened JsValue
  import JsText
  import AiText
  import opened Http
  import opened Session

  const LoadError := "Gagal mengambil data resep"

  datatype Load = Loaded(recipes: seq<Value>) | LoadFailed(message: Message)

  /**
   * `fetchRecipes` after the token check: a truthy payload is mapped record by record (a payload
   * that is not an array, or a recipe text that is not a string, throws); a falsy one is no recipes.
   */
  function FetchRecipes(reply: Reply): (r: Load)
    ensures reply.Failed? ==> r == LoadFailed(ServerErrorOr(reply.failure, LoadError))
    ensures reply.Answered? && !Truthy(reply.response.data) ==> r == Loaded([])
    ensures reply.Answered? && Truthy(reply.response.data) ==>
      && (r.Loaded? <==> reply.response.data.Arr? && AiText.CleanList(reply.response.data.items, "recipe").Some?)
      && (r.Loaded? ==> r.recipes == AiText.CleanList(reply.response.data.items, "recipe").value)
      && (r.LoadFailed? ==> r.message == Text(LoadError))
  {
    match reply
    case Failed(f) => LoadFailed(ServerErrorOr(f, LoadError))
    case Answered(response) =>
      if !Truthy(response.data) then Loaded([])
      else if !response.data.Arr? then LoadFailed(ServerErrorOr(TypeError("response.data.map is not a function"), LoadError))
      else
        match AiText.CleanList(response.data.items, "recipe")
        case None => LoadFailed(ServerErrorOr(TypeError("recipe.recipe.replace is not a function"), LoadError))
        case Some(cleaned) => Loaded(cleaned)
  }

  /** The ingredients line: shown only for a non-empty list, as "Bahan: " and the items joined by ", ". */
  function IngredientsLine(recipe: Value): (line: Option<string>)
    ensures line.Some? <==> OptProp(recipe, "ingredients").Arr? && |OptProp(recipe, "ingredients").items| > 0
    ensures line.Some? ==> line.value == "Bahan: " + JoinValues(OptProp(recipe, "ingredients").items, ", ")
  {
    var v := OptProp(recipe, "ingredients");
    if v.Arr? && |v.items| > 0 then Some("Bahan: " + JoinValues(v.items, ", ")) else None
  }

  /** For a list of names the line is the names joined by ", ". */
  lemma IngredientsLineOfNames(names: seq<string>)
    requires |names| > 0
    ensures IngredientsLine(Wrap("ingredients", Arr(seq(|names|, i requires 0 <= i < |names| => Str(names[i])))))
            == Some("Bahan: " + JsText.Join(names, ", "))
  {
    JoinValuesOfStrings(names, ", ");
  }

  /** The loaded recipes of the screen. */
  class History {
    var recipes: seq<Value>

    constructor ()
      ensures recipes == []
    {
      recipes := [];
    }

    /** `fetchRecipes`: with no token nothing is requested and the list stays as it was. */
    method Fetch(token: Option<string>, reply: Reply) returns (start: Start, load: Option<Load>)
      modifies this
      ensures start == TokenGuard(token)
      ensures start == ToLogin ==> load.None? && recipes == old(recipes)
      ensures start == Proceed ==> load == Some(FetchRecipes(reply))
      ensures start == Proceed && FetchRecipes(reply).Loaded? ==> recipes == FetchRecipes(reply).recipes
      ensures start == Proceed && FetchRecipes(reply).LoadFailed? ==> recipes == old(recipes)
    {
      start := TokenGuard(token);
      if start == ToLogin {
        return start, None;
      }
      var l := FetchRecipes(reply);
      load := Some(l);
      if l.Loaded? {
        recipes := l.recipes;
      }
    }

    /** `deleteRecipe` once confirmed: the list loses exactly the recipes with that id when the server agrees. */
    method DeleteRecipe(id: int, token: Option<string>, reply: Reply) returns (start: Start)
      modifies this
      ensures start == TokenGuard(token)
      ensures start == Proceed && reply.Answered? ==> recipes == RemoveById(old(recipes), id)
      ensures !(start == Proceed && reply.Answered?) ==> recipes == old(recipes)
    {
      start := TokenGuard(token);
      if start == Proceed && reply.Answered? {
        recipes := RemoveById(recipes, id);
      }
    }
  }
}
