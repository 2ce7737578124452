/**
 * The inventory administration screen: its access check, the normalisation of the food list
 * the server sends, the username and category filters, and the expiry date display.
 */
module FoodManagement {
  import opened Wrappers
  import opened JsValue
  import JsText
  import JsArray
  import opened Http
  import opened Session

  /** `checkAccess`: only super administrators and inventory administrators get in. */
  function CheckAccess(role: Option<string>): (r: Access)
    ensures r == Granted <==> role == Some(SuperAdmin) || role == Some(AdminInventori)
  {
    Gate(role, [SuperAdmin, AdminInventori])
  }

  /** A food row as the screen keeps it; each field is whatever the server sent. */
  datatype AdminFood = AdminFood(
    foodId: Value, foodName: Value, quantity: Value, expiryDate: Value, username: Value, categoryName: Value)

  /** The record mapping of `fetchFoods`; reading a field of null or undefined throws. */
  function ToAdminFood(food: Value): (r: Option<AdminFood>)
    ensures r.None? <==> food.Undefined? || food.Null?
    ensures food.Obj? ==> r == Some(AdminFood(Field(food, "id"), Field(food, "name"), Field(food, "quantity"),
                                             Field(food, "expiryDate"), Field(food, "user"), Field(food, "category")))
    ensures !food.Obj? && r.Some? ==> r.value == AdminFood(Undefined, Undefined, Undefined, Undefined, Undefined, Undefined)
  {
    match Prop(food, "id")
    case None => None
    case Some(id) =>
      Some(AdminFood(id, OptProp(food, "name"), OptProp(food, "quantity"),
                     OptProp(food, "expiryDate"), OptProp(food, "user"), OptProp(food, "category")))
  }

  /** What a load ends in: the normalised list, or an alert. */
  datatype Load = Loaded(foods: seq<AdminFood>) | LoadFailed(message: Message)

  const LoadError := "Gagal mengambil data makanan"

  /**
   * `fetchFoods`: unwrap the envelope (the array itself, else `.foods`, else `.data`) and map
   * every record. Anything but an array there, or a null record, throws inside the try block.
   */
  function FetchFoods(reply: Reply): (r: Load)
    ensures reply.Failed? ==> r == LoadFailed(ServerErrorOr(reply.failure, LoadError))
    ensures reply.Answered? ==>
      var list := Unwrap(reply.response.data, "foods");
      && (r.Loaded? <==> list.Arr? && JsArray.AllDefined(list.items, ToAdminFood))
      && (r.Loaded? ==> |r.foods| == |list.items|
                        && forall i :: 0 <= i < |list.items| ==> ToAdminFood(list.items[i]) == Some(r.foods[i]))
      && (r.LoadFailed? ==> r.message == Text(LoadError))
  {
    match reply
    case Failed(f) => LoadFailed(ServerErrorOr(f, LoadError))
    case Answered(response) =>
      var list := Unwrap(response.data, "foods");
      if !list.Arr? then LoadFailed(ServerErrorOr(TypeError("foodsData.map is not a function"), LoadError))
      else
        match JsArray.MapChecked(list.items, ToAdminFood)
        case None => LoadFailed(ServerErrorOr(TypeError("Cannot read properties of null"), LoadError))
        case Some(foods) => Loaded(foods)
  }

  /** Every envelope shape the server may use yields the same rows. */
  lemma FetchFoodsAcceptsEnvelopes(status: int, items: seq<Value>)
    ensures FetchFoods(Answered(Response(status, Arr(items))))
         == FetchFoods(Answered(Response(status, Wrap("foods", Arr(items)))))
         == FetchFoods(Answered(Response(status, Wrap("data", Arr(items)))))
  {
    UnwrapEnvelopes(items, "foods");
  }

  /** `food.username.toLowerCase().includes(search.toLowerCase())`; a username that is not a string throws. */
  function UsernameTest(food: AdminFood, search: string): (r: Option<bool>)
    ensures r.None? <==> !food.username.Str?
    ensures r.Some? ==>
      (r.value <==> exists i :: JsText.OccursAt(JsText.Lower(food.username.s), JsText.Lower(search), i))
  {
    if food.username.Str? then Some(JsText.Includes(JsText.Lower(food.username.s), JsText.Lower(search))) else None
  }

  function UsernameMatches(search: string): AdminFood -> Option<bool> {
    (food: AdminFood) => UsernameTest(food, search)
  }

  /** `food.category_name === category` */
  function CategoryMatches(category: string): (r: AdminFood -> bool)
    ensures forall food :: r(food) <==> food.categoryName.Str? && food.categoryName.s == category
  {
    (food: AdminFood) => food.categoryName == Str(category)
  }

  /** The combined condition: an empty search or category places no restriction. */
  predicate Keeps(food: AdminFood, search: string, category: string) {
    && (search == "" || UsernameTest(food, search) == Some(true))
    && (category == "" || food.categoryName == Str(category))
  }

  /** The username stage of `filterFoods`: every food when the search is empty. */
  function ByUsername(foods: seq<AdminFood>, search: string): (r: Option<seq<AdminFood>>)
    ensures r.None? <==> search != "" && exists i :: 0 <= i < |foods| && !foods[i].username.Str?
    ensures r.Some? ==> JsArray.IsSubsequence(r.value, foods)
    ensures r.Some? ==> forall i :: 0 <= i < |r.value| ==> Keeps(r.value[i], search, "")
    ensures r.Some? ==> forall i :: 0 <= i < |foods| && Keeps(foods[i], search, "") ==> foods[i] in r.value
    ensures r.Some? ==> forall x :: multiset(r.value)[x] == if Keeps(x, search, "") then multiset(foods)[x] else 0
  {
    if search == "" then
      JsArray.SubsequenceReflexive(foods);
      Some(foods)
    else
      var p := UsernameMatches(search);
      assert forall i :: 0 <= i < |foods| ==> p(foods[i]).Some? == foods[i].username.Str?;
      var r := JsArray.FilterChecked(foods, p);
      if r.None? then r
      else
        var q := JsArray.Passes(p);
        assert forall x :: q(x) <==> UsernameTest(x, search) == Some(true);
        forall x ensures multiset(r.value)[x] == if Keeps(x, search, "") then multiset(foods)[x] else 0 {
          JsArray.FilterCount(foods, q, x);
        }
        r
  }

  /** The category stage of `filterFoods`: every food when no category is chosen. */
  function ByCategory(foods: seq<AdminFood>, category: string): (r: seq<AdminFood>)
    ensures JsArray.IsSubsequence(r, foods)
    ensures forall i :: 0 <= i < |r| ==> r[i] in foods
    ensures forall i :: 0 <= i < |r| ==> category == "" || r[i].categoryName == Str(category)
    ensures forall i :: 0 <= i < |foods| && (category == "" || foods[i].categoryName == Str(category)) ==> foods[i] in r
    ensures forall x :: multiset(r)[x] == if category == "" || x.categoryName == Str(category) then multiset(foods)[x] else 0
  {
    if category == "" then
      JsArray.SubsequenceReflexive(foods);
      foods
    else
      forall x ensures multiset(JsArray.Filter(foods, CategoryMatches(category)))[x]
                       == if x.categoryName == Str(category) then multiset(foods)[x] else 0 {
        JsArray.FilterCount(foods, CategoryMatches(category), x);
      }
      JsArray.Filter(foods, CategoryMatches(category))
  }

  /**
   * `filterFoods`: the username filter when a search is typed, then the category filter when a
   * category is chosen. None when the username filter throws.
   */
  function FilterFoods(foods: seq<AdminFood>, search: string, category: string): (r: Option<seq<AdminFood>>)
    ensures r.None? <==> search != "" && exists i :: 0 <= i < |foods| && !foods[i].username.Str?
    ensures search == "" && category == "" ==> r == Some(foods)
    ensures r.Some? ==> JsArray.IsSubsequence(r.value, foods)
    ensures r.Some? ==> forall i :: 0 <= i < |r.value| ==> Keeps(r.value[i], search, category)
    ensures r.Some? ==> forall i :: 0 <= i < |foods| && Keeps(foods[i], search, category) ==> foods[i] in r.value
    ensures r.Some? ==> forall x :: multiset(r.value)[x] == if Keeps(x, search, category) then multiset(foods)[x] else 0
  {
    match ByUsername(foods, search)
    case None => None
    case Some(s1) =>
      var s2 := ByCategory(s1, category);
      JsArray.SubsequenceTransitive(s2, s1, foods);
      StagesCompose(foods, s1, search, category);
      Some(s2)
  }

  /** The category stage keeps exactly what passes both conditions of what the username stage kept. */
  lemma StagesCompose(foods: seq<AdminFood>, s1: seq<AdminFood>, search: string, category: string)
    requires forall i :: 0 <= i < |s1| ==> Keeps(s1[i], search, "")
    requires forall i :: 0 <= i < |foods| && Keeps(foods[i], search, "") ==> foods[i] in s1
    ensures forall i :: 0 <= i < |ByCategory(s1, category)| ==> Keeps(ByCategory(s1, category)[i], search, category)
    ensures forall i :: 0 <= i < |foods| && Keeps(foods[i], search, category) ==> foods[i] in ByCategory(s1, category)
  {
    var s2 := ByCategory(s1, category);
    forall i | 0 <= i < |s2| ensures Keeps(s2[i], search, category) {
      var j :| 0 <= j < |s1| && s1[j] == s2[i];
    }
    forall i | 0 <= i < |foods| && Keeps(foods[i], search, category) ensures foods[i] in s2 {
      var j :| 0 <= j < |s1| && s1[j] == foods[i];
    }
  }

  /** `formatDate`: an unparseable date shows "Tanggal tidak valid", any other is formatted for the locale. */
  function FormatDate(date: Value, parse: Value -> Option<int>, format: int -> string): (r: string)
    ensures parse(date).None? ==> r == "Tanggal tidak valid"
    ensures parse(date).Some? ==> r == format(parse(date).value)
  {
    match parse(date)
    case None => "Tanggal tidak valid"
    case Some(t) => format(t)
  }

  /** The screen's list state: the loaded foods, the filter inputs and the filtered list on display. */
  class FoodList {
    var foods: seq<AdminFood>
    var filteredFoods: seq<AdminFood>
    var searchUsername: string
    var selectedCategory: string

    constructor ()
      ensures foods == [] && filteredFoods == [] && searchUsername == "" && selectedCategory == ""
    {
      foods, filteredFoods := [], [];
      searchUsername, selectedCategory := "", "";
    }

    /**
     * The effect that reruns `filterFoods` after every change. A throwing filter is an uncaught
     * TypeError (the effect has no `catch`): it is reported in `uncaught` and the display stays as it was.
     */
    method Refilter() returns (uncaught: bool)
      modifies this`filteredFoods
      ensures uncaught <==> FilterFoods(foods, searchUsername, selectedCategory).None?
      ensures filteredFoods == match FilterFoods(foods, searchUsername, selectedCategory)
                               case None => old(filteredFoods)
                               case Some(s) => s
    {
      var r := FilterFoods(foods, searchUsername, selectedCategory);
      uncaught := r.None?;
      if r.Some? {
        filteredFoods := r.value;
      }
    }

    /**
     * A successful `fetchFoods` sets both lists to the loaded foods, and the effect then refilters
     * them with the current search and category; a failed one changes nothing.
     */
    method ApplyLoad(reply: Reply) returns (uncaught: bool)
      modifies this
      ensures searchUsername == old(searchUsername) && selectedCategory == old(selectedCategory)
      ensures FetchFoods(reply).Loaded? ==> foods == FetchFoods(reply).foods
      ensures FetchFoods(reply).Loaded? ==>
                && (uncaught <==> FilterFoods(foods, searchUsername, selectedCategory).None?)
                && filteredFoods == match FilterFoods(foods, searchUsername, selectedCategory)
                                    case None => foods
                                    case Some(s) => s
      ensures FetchFoods(reply).LoadFailed? ==> !uncaught && foods == old(foods) && filteredFoods == old(filteredFoods)
    {
      uncaught := false;
      var load := FetchFoods(reply);
      if load.Loaded? {
        foods, filteredFoods := load.foods, load.foods;
        uncaught := Refilter();
      }
    }

    /** Typing in the username search, then the effect's refilter. */
    method SetSearchUsername(text: string) returns (uncaught: bool)
      modifies this
      ensures foods == old(foods) && selectedCategory == old(selectedCategory) && searchUsername == text
      ensures uncaught <==> FilterFoods(foods, text, selectedCategory).None?
      ensures filteredFoods == match FilterFoods(foods, text, selectedCategory)
                               case None => old(filteredFoods)
                               case Some(s) => s
    {
      searchUsername := text;
      uncaught := Refilter();
    }

    /** Choosing a category, then the effect's refilter. */
    method SetSelectedCategory(category: string) returns (uncaught: bool)
      modifies this
      ensures foods == old(foods) && searchUsername == old(searchUsername) && selectedCategory == category
      ensures uncaught <==> FilterFoods(foods, searchUsername, category).None?
      ensures filteredFoods == match FilterFoods(foods, searchUsername, category)
                               case None => old(filteredFoods)
                               case Some(s) => s
    {
      selectedCategory := category;
      uncaught := Refilter();
    }
  }
}
