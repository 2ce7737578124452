/**
 * The administrator dashboard: the session guard, the login statistics, the category list
 * and the new-category form. `parse` stands for `new Date(value)` (None being an Invalid
 * Date) and `offset` for the device's offset from UTC.
 */
module AdminHome {
  import opened Wrappers
  import opened JsValue
  import JsText
  import JsArray
  import opened Http
  import opened Session
  import opened Clock

  /** `loadUserData`: the dashboard loads only when both a role and a username are stored. */
  datatype Start = LoadDashboard | ResetToLogin

  function LoadUserData(role: Option<string>, username: Option<string>): (r: Start)
    ensures r == LoadDashboard <==> Present(role) && Present(username)
  {
    if Present(role) && Present(username) then LoadDashboard else ResetToLogin
  }

  datatype Stats = Stats(totalUsers: nat, todayLogins: nat, failedLogins: nat)

  /**
   * The `todayLogins` test. Any TypeError is caught and counts as false; the log needs a truthy
   * timestamp whose local calendar day is today's, and the status 'success'.
   */
  predicate IsTodaySuccess(log: Value, now: int, offset: int, parse: Value -> Option<int>): (b: bool)
    ensures !log.Obj? ==> !b
    ensures b ==> Truthy(Field(log, "timestamp")) && Field(log, "status") == Str("success")
    ensures b ==> parse(Field(log, "timestamp")).Some?
    ensures b ==> var t := parse(Field(log, "timestamp")).value;
                  var midnight := LocalDay(now, offset) * MillisPerDay - offset;
                  midnight <= t < midnight + MillisPerDay
    ensures (&& log.Obj? && Truthy(Field(log, "timestamp")) && Field(log, "status") == Str("success")
             && parse(Field(log, "timestamp")).Some?
             && var t := parse(Field(log, "timestamp")).value;
                var midnight := LocalDay(now, offset) * MillisPerDay - offset;
                midnight <= t < midnight + MillisPerDay) ==> b
  {
    && log.Obj?
    && Truthy(Field(log, "timestamp"))
    && parse(Field(log, "timestamp")).Some?
    && LocalDay(parse(Field(log, "timestamp")).value, offset) == LocalDay(now, offset)
    && Field(log, "status") == Str("success")
  }

  function CountsToday(now: int, offset: int, parse: Value -> Option<int>): Value -> bool {
    (log: Value) => IsTodaySuccess(log, now, offset, parse)
  }

  /** The `failedLogins` test `log.status === 'failed'`, which throws on a null log. */
  function IsFailed(log: Value): (r: Option<bool>)
    ensures r.None? <==> log.Undefined? || log.Null?
    ensures r == Some(true) <==> log.Obj? && Field(log, "status") == Str("failed")
  {
    match Prop(log, "status")
    case None => None
    case Some(status) => Some(status == Str("failed"))
  }

  /** The logs counted: the payload when it is an array, nothing otherwise. */
  function LogList(data: Value): seq<Value> {
    if data.Arr? then data.items else []
  }

  const StatsError := "Gagal memuat statistik. Silakan coba lagi."

  datatype StatsLoad = StatsLoaded(stats: Stats) | StatsFailed(message: string)

  /**
   * `fetchStats` given the replies to the user list and login log requests. Either request
   * failing, or a null log reaching the `failedLogins` filter, ends in the one alert.
   */
  function FetchStats(users: Reply, logs: Reply, now: int, offset: int, parse: Value -> Option<int>): (r: StatsLoad)
    ensures r.StatsLoaded? <==> users.Answered? && logs.Answered? && JsArray.AllDefined(LogList(logs.response.data), IsFailed)
    ensures r.StatsFailed? ==> r.message == StatsError
    ensures r.StatsLoaded? ==>
      var list := LogList(logs.response.data);
      && r.stats.totalUsers == (if users.response.data.Arr? then |users.response.data.items| else 0)
      && r.stats.todayLogins == |JsArray.Filter(list, CountsToday(now, offset, parse))|
      && r.stats.failedLogins == |JsArray.Filter(list, JsArray.Passes(IsFailed))|
  {
    if users.Failed? || logs.Failed? then StatsFailed(StatsError)
    else
      var list := LogList(logs.response.data);
      var today := |JsArray.Filter(list, CountsToday(now, offset, parse))|;
      match JsArray.FilterChecked(list, IsFailed)
      case None => StatsFailed(StatsError)
      case Some(failed) =>
        var total := if users.response.data.Arr? then |users.response.data.items| else 0;
        StatsLoaded(Stats(total, today, |failed|))
  }

  /** No log is both a successful login today and a failed one, so the two counts fit in the log. */
  lemma CountsFitInLog(users: Reply, logs: Reply, now: int, offset: int, parse: Value -> Option<int>)
    requires FetchStats(users, logs, now, offset, parse).StatsLoaded?
    ensures var s := FetchStats(users, logs, now, offset, parse).stats;
            s.todayLogins + s.failedLogins <= |LogList(logs.response.data)|
  {
    var list := LogList(logs.response.data);
    var p, q := CountsToday(now, offset, parse), JsArray.Passes(IsFailed);
    forall i | 0 <= i < |list| ensures !(p(list[i]) && q(list[i])) {
      if p(list[i]) {
        assert IsFailed(list[i]) == Some(false);
      }
    }
    JsArray.DisjointFiltersFit(list, p, q);
  }

  /** A log without a truthy timestamp never counts towards today's logins. */
  lemma UntimedLogsNeverCount(logs: seq<Value>, now: int, offset: int, parse: Value -> Option<int>, i: int)
    requires 0 <= i < |logs| && !Truthy(OptProp(logs[i], "timestamp"))
    ensures logs[i] !in JsArray.Filter(logs, CountsToday(now, offset, parse))
  {
  }

  /** A logs payload that is not an array counts as an empty log. */
  lemma NonArrayLogsCountNothing(users: Reply, logs: Reply, now: int, offset: int, parse: Value -> Option<int>)
    requires users.Answered? && logs.Answered? && !logs.response.data.Arr?
    ensures FetchStats(users, logs, now, offset, parse).StatsLoaded?
    ensures FetchStats(users, logs, now, offset, parse).stats.todayLogins == 0
    ensures FetchStats(users, logs, now, offset, parse).stats.failedLogins == 0
  {
  }

  /** A category as the dashboard lists it. */
  datatype Category = Category(id: Value, name: Value)

  /** `{ id: c.id || c.category_id, name: c.name || c.category_name }`, which throws on a null record. */
  function ToCategory(c: Value): (r: Option<Category>)
    ensures r.None? <==> c.Undefined? || c.Null?
    ensures c.Obj? ==>
      && r.Some?
      && r.value.id == (if Truthy(Field(c, "id")) then Field(c, "id") else Field(c, "category_id"))
      && r.value.name == (if Truthy(Field(c, "name")) then Field(c, "name") else Field(c, "category_name"))
    ensures !c.Obj? && r.Some? ==> r.value == Category(Undefined, Undefined)
  {
    match Prop(c, "id")
    case None => None
    case Some(id) => Some(Category(Or(id, OptProp(c, "category_id")), Or(OptProp(c, "name"), OptProp(c, "category_name"))))
  }

  const CategoriesError := "Gagal mengambil data kategori"

  datatype CategoriesLoad = CategoriesLoaded(categories: seq<Category>) | CategoriesFailed(message: Message)

  /** `fetchCategories`: the array itself, else `.categories`, else `.data`, then every record mapped. */
  function FetchCategories(reply: Reply): (r: CategoriesLoad)
    ensures reply.Failed? ==> r == CategoriesFailed(ServerErrorOr(reply.failure, CategoriesError))
    ensures reply.Answered? ==>
      var list := Unwrap(reply.response.data, "categories");
      && (r.CategoriesLoaded? <==> list.Arr? && JsArray.AllDefined(list.items, ToCategory))
      && (r.CategoriesLoaded? ==> |r.categories| == |list.items|
                                  && forall i :: 0 <= i < |list.items| ==> ToCategory(list.items[i]) == Some(r.categories[i]))
      && (r.CategoriesFailed? ==> r.message == Text(CategoriesError))
  {
    match reply
    case Failed(f) => CategoriesFailed(ServerErrorOr(f, CategoriesError))
    case Answered(response) =>
      var list := Unwrap(response.data, "categories");
      if !list.Arr? then CategoriesFailed(ServerErrorOr(TypeError("categoriesData.map is not a function"), CategoriesError))
      else
        match JsArray.MapChecked(list.items, ToCategory)
        case None => CategoriesFailed(ServerErrorOr(TypeError("Cannot read properties of null"), CategoriesError))
        case Some(cs) => CategoriesLoaded(cs)
  }

  /** A record that carries only the alternative field names yields the same category. */
  lemma CategoryFallbackNames(id: Value, name: Value)
    requires Truthy(id) && Truthy(name)
    ensures ToCategory(Obj(map["category_id" := id, "category_name" := name])) == Some(Category(id, name))
    ensures ToCategory(Obj(map["id" := id, "name" := name])) == Some(Category(id, name))
  {
    var alt := Obj(map["category_id" := id, "category_name" := name]);
    assert "id" !in alt.fields && "name" !in alt.fields;
  }

  const BlankCategory := "Nama kategori tidak boleh kosong"
  const AddCategoryError := "Gagal menambahkan kategori"

  /** The outcome of `handleAddCategory`. */
  datatype AddCategory =
    | Blank
    | Added(sent: string, notice: Value)
    | AddFailed(sent: string, message: Message)

  /**
   * `handleAddCategory`: a name that is blank after trimming is refused before any request; any
   * other name is sent as typed. A reply without a truthy `message` is treated as an error.
   */
  function HandleAddCategory(newCategory: string, reply: Reply): (r: AddCategory)
    ensures r.Blank? <==> JsText.AllSpace(newCategory)
    ensures !r.Blank? ==> r.sent == newCategory
    ensures r.Added? <==> !JsText.AllSpace(newCategory) && reply.Answered?
                          && Truthy(reply.response.data) && Truthy(OptProp(reply.response.data, "message"))
    ensures r.Added? ==> r.notice == OptProp(reply.response.data, "message")
    ensures r.AddFailed? && reply.Answered? ==> r.message == Text(AddCategoryError)
    ensures r.AddFailed? && reply.Failed? ==> r.message == ServerErrorOr(reply.failure, AddCategoryError)
  {
    if JsText.Trim(newCategory) == "" then Blank
    else
      match reply
      case Failed(f) => AddFailed(newCategory, ServerErrorOr(f, AddCategoryError))
      case Answered(response) =>
        if Truthy(response.data) && Truthy(OptProp(response.data, "message")) then
          Added(newCategory, OptProp(response.data, "message"))
        else
          AddFailed(newCategory, ServerErrorOr(TypeError("Respons tidak valid dari server"), AddCategoryError))
  }

  /** The dashboard's state: the statistics shown, the category list and the new-category input. */
  class Dashboard {
    var stats: Stats
    var categories: seq<Category>
    var newCategory: string

    constructor ()
      ensures stats == Stats(0, 0, 0) && categories == [] && newCategory == ""
    {
      stats, categories, newCategory := Stats(0, 0, 0), [], "";
    }

    /** `setStats` after `fetchStats`; a failed load keeps the numbers already shown. */
    method ApplyStats(users: Reply, logs: Reply, now: int, offset: int, parse: Value -> Option<int>)
      modifies this`stats
      ensures stats == match FetchStats(users, logs, now, offset, parse)
                       case StatsLoaded(s) => s
                       case StatsFailed(_) => old(stats)
    {
      var load := FetchStats(users, logs, now, offset, parse);
      if load.StatsLoaded? {
        stats := load.stats;
      }
    }

    /** `setCategories` after `fetchCategories`; a failed load keeps the list. */
    method ApplyCategories(reply: Reply)
      modifies this`categories
      ensures categories == match FetchCategories(reply)
                            case CategoriesLoaded(cs) => cs
                            case CategoriesFailed(_) => old(categories)
    {
      var load := FetchCategories(reply);
      if load.CategoriesLoaded? {
        categories := load.categories;
      }
    }

    /** The input is cleared only when the category was added. */
    method SubmitCategory(reply: Reply) returns (outcome: AddCategory)
      modifies this`newCategory
      ensures outcome == HandleAddCategory(old(newCategory), reply)
      ensures newCategory == if outcome.Added? then "" else old(newCategory)
    {
      outcome := HandleAddCategory(newCategory, reply);
      if outcome.Added? {
        newCategory := "";
      }
    }
  }
}
