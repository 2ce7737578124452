/**
 * The food list screen: expiry classification, grouping by status, the selection of
 * ingredients for recipe or fertilizer generation, and handling of the generation reply.
 * Instants are integer milliseconds; `parse` stands for `new Date(text).getTime()`,
 * None being an Invalid Date.
 */
module FoodsScreen {
  import opened Wrappers
  import opened JsValue
  import JsText
  import JsArray
  import AiText
  import opened Http
  import Session
  import opened Clock

  /** A food as the list holds it; `expiryDate` is None when the server sent null. */
  datatype Food = Food(id: int, name: string, expiryDate: Option<string>, quantity: int, categoryName: string)

  datatype Status = Fresh | Warning | Expired

  datatype ExpiryStatus = ExpiryStatus(status: Status, message: string, color: string)

  /** `Math.ceil(a / d)` for a positive divisor. */
  function CeilDiv(a: int, d: int): (q: int)
    requires d > 0
    ensures (q - 1) * d < a <= q * d
  {
    var f := (-a) / d;
    assert f * d <= -a < f * d + d;
    -f
  }

  /** The whole days, rounded up, from `now` until `expiry`. */
  function DaysUntil(expiry: int, now: int): (d: int)
    ensures (d - 1) * MillisPerDay < expiry - now <= d * MillisPerDay
    ensures d < 0 <==> expiry - now <= -MillisPerDay
    ensures d <= 3 <==> expiry - now <= 3 * MillisPerDay
  {
    CeilDiv(expiry - now, MillisPerDay)
  }

  /**
   * `getExpiryStatus`: expired below zero days, a warning from zero to three days, fresh beyond.
   * An unparseable date gives NaN days, which fails both comparisons and so reads as fresh.
   */
  function GetExpiryStatus(expiryDate: string, now: int, parse: string -> Option<int>): (r: ExpiryStatus)
    ensures parse(expiryDate).Some? ==>
      var d := DaysUntil(parse(expiryDate).value, now);
      && (r.status == Expired <==> d < 0)
      && (r.status == Warning <==> 0 <= d <= 3)
      && (r.status == Fresh <==> d > 3)
      && (r.status == Expired ==> r.message == "Kadaluwarsa" && r.color == "#d32f2f")
      && (r.status == Warning ==> r.message == "Segera kadaluwarsa (" + JsText.IntToDecimal(d) + " hari)" && r.color == "#f57c00")
      && (r.status == Fresh ==> r.message == JsText.IntToDecimal(d) + " hari lagi" && r.color == "#388e3c")
    ensures parse(expiryDate).None? ==> r == ExpiryStatus(Fresh, "NaN hari lagi", "#388e3c")
  {
    match parse(expiryDate)
    case None => ExpiryStatus(Fresh, "NaN hari lagi", "#388e3c")
    case Some(expiry) =>
      var d := DaysUntil(expiry, now);
      if d < 0 then ExpiryStatus(Expired, "Kadaluwarsa", "#d32f2f")
      else if d <= 3 then ExpiryStatus(Warning, "Segera kadaluwarsa (" + JsText.IntToDecimal(d) + " hari)", "#f57c00")
      else ExpiryStatus(Fresh, JsText.IntToDecimal(d) + " hari lagi", "#388e3c")
  }

  /**
   * The same thresholds in milliseconds: expired once a full day or more has passed,
   * a warning up to exactly three days ahead, fresh after that.
   */
  lemma ExpiryThresholds(expiry: int, now: int, parse: string -> Option<int>, text: string)
    requires parse(text) == Some(expiry)
    ensures GetExpiryStatus(text, now, parse).status == Expired <==> expiry - now <= -MillisPerDay
    ensures GetExpiryStatus(text, now, parse).status == Warning <==> -MillisPerDay < expiry - now <= 3 * MillisPerDay
    ensures GetExpiryStatus(text, now, parse).status == Fresh <==> expiry - now > 3 * MillisPerDay
  {
    var diff, d := expiry - now, DaysUntil(expiry, now);
    assert (d - 1) * MillisPerDay < diff <= d * MillisPerDay;
    if d < 0 {
      assert d * MillisPerDay <= -MillisPerDay;
    } else if d <= 3 {
      assert (d - 1) * MillisPerDay >= -MillisPerDay;
      assert d * MillisPerDay <= 3 * MillisPerDay;
    } else {
      assert (d - 1) * MillisPerDay >= 3 * MillisPerDay;
    }
  }

  /** The day count in a warning or fresh message reads back as the day count itself. */
  lemma MessageCarriesDayCount(expiry: int, now: int, parse: string -> Option<int>, text: string)
    requires parse(text) == Some(expiry) && DaysUntil(expiry, now) >= 0
    ensures var r := GetExpiryStatus(text, now, parse);
            var digits := JsText.NatToDecimal(DaysUntil(expiry, now));
            && (r.status == Warning ==> r.message == "Segera kadaluwarsa (" + digits + " hari)")
            && (r.status == Fresh ==> r.message == digits + " hari lagi")
            && JsText.DecimalValue(digits) == DaysUntil(expiry, now)
  {
    JsText.DecimalRoundTrip(DaysUntil(expiry, now));
  }

  /** The bucket `groupFoodsByStatus` puts a food in: by its expiry status when it has a date, fresh otherwise. */
  function Bucket(food: Food, now: int, parse: string -> Option<int>): Status {
    if Session.Present(food.expiryDate) then GetExpiryStatus(food.expiryDate.value, now, parse).status else Fresh
  }

  /** The foods in one bucket, in list order. */
  function InBucket(foods: seq<Food>, st: Status, now: int, parse: string -> Option<int>): seq<Food>
    decreases |foods|
  {
    if foods == [] then []
    else
      var last := foods[|foods| - 1];
      InBucket(foods[..|foods| - 1], st, now, parse) + (if Bucket(last, now, parse) == st then [last] else [])
  }

  /** A bucket holds exactly the listed foods of its status. */
  lemma {:induction false} InBucketMembers(foods: seq<Food>, st: Status, now: int, parse: string -> Option<int>, x: Food)
    ensures x in InBucket(foods, st, now, parse) <==> x in foods && Bucket(x, now, parse) == st
    decreases |foods|
  {
    if foods != [] {
      var init := foods[..|foods| - 1];
      InBucketMembers(init, st, now, parse, x);
      assert foods == init + [foods[|foods| - 1]];
    }
  }

  /** `groupFoodsByStatus`: one pass over the list, each food pushed onto the array for its status. */
  method GroupFoodsByStatus(foods: seq<Food>, now: int, parse: string -> Option<int>)
    returns (freshFoods: seq<Food>, warningFoods: seq<Food>, expiredFoods: seq<Food>)
    ensures freshFoods == InBucket(foods, Fresh, now, parse)
    ensures warningFoods == InBucket(foods, Warning, now, parse)
    ensures expiredFoods == InBucket(foods, Expired, now, parse)
  {
    freshFoods, warningFoods, expiredFoods := [], [], [];
    for i := 0 to |foods|
      invariant freshFoods == InBucket(foods[..i], Fresh, now, parse)
      invariant warningFoods == InBucket(foods[..i], Warning, now, parse)
      invariant expiredFoods == InBucket(foods[..i], Expired, now, parse)
    {
      var food := foods[i];
      assert foods[..i + 1] == foods[..i] + [food];
      BucketStep(foods[..i], food, Fresh, now, parse);
      BucketStep(foods[..i], food, Warning, now, parse);
      BucketStep(foods[..i], food, Expired, now, parse);
      if food.expiryDate.Some? && food.expiryDate.value != "" {
        var status := GetExpiryStatus(food.expiryDate.value, now, parse);
        assert status.status == Bucket(food, now, parse);
        match status.status
        case Fresh => freshFoods := freshFoods + [food];
        case Warning => warningFoods := warningFoods + [food];
        case Expired => expiredFoods := expiredFoods + [food];
      } else {
        assert Bucket(food, now, parse) == Fresh;
        freshFoods := freshFoods + [food];
      }
    }
    assert foods[..|foods|] == foods;
  }

  /** Appending a food appends it to its own bucket and leaves the others as they were. */
  lemma BucketStep(foods: seq<Food>, food: Food, st: Status, now: int, parse: string -> Option<int>)
    ensures InBucket(foods + [food], st, now, parse)
            == InBucket(foods, st, now, parse) + (if Bucket(food, now, parse) == st then [food] else [])
  {
    assert (foods + [food])[..|foods|] == foods;
  }

  /** The three buckets partition the list: together they hold every food exactly as often as the list does. */
  lemma {:induction false} GroupingIsPartition(foods: seq<Food>, now: int, parse: string -> Option<int>)
    ensures multiset(InBucket(foods, Fresh, now, parse)) + multiset(InBucket(foods, Warning, now, parse))
            + multiset(InBucket(foods, Expired, now, parse)) == multiset(foods)
    ensures |InBucket(foods, Fresh, now, parse)| + |InBucket(foods, Warning, now, parse)|
            + |InBucket(foods, Expired, now, parse)| == |foods|
  {
    if foods != [] {
      var init, last := foods[..|foods| - 1], foods[|foods| - 1];
      assert foods == init + [last];
      GroupingIsPartition(init, now, parse);
      BucketStep(init, last, Fresh, now, parse);
      BucketStep(init, last, Warning, now, parse);
      BucketStep(init, last, Expired, now, parse);
      assert multiset(foods) == multiset(init) + multiset{last};
    }
  }

  /** Every food lands in the bucket of its own status and in no other; undated foods land in `fresh`. */
  lemma EachFoodInItsBucket(foods: seq<Food>, now: int, parse: string -> Option<int>, i: int)
    requires 0 <= i < |foods|
    ensures forall st: Status :: foods[i] in InBucket(foods, st, now, parse) <==> st == Bucket(foods[i], now, parse)
    ensures !Session.Present(foods[i].expiryDate) ==> foods[i] in InBucket(foods, Fresh, now, parse)
  {
    forall st: Status ensures foods[i] in InBucket(foods, st, now, parse) <==> st == Bucket(foods[i], now, parse) {
      InBucketMembers(foods, st, now, parse, foods[i]);
    }
  }

  // ---- Ingredient selection ----------------------------------------------------------

  /** One entry of the request body: `{ id, quantity }`. */
  datatype Ingredient = Ingredient(id: int, quantity: int)

  /** `handleCheckboxChange` on the id list: a selected id is removed everywhere, another one is appended. */
  function Toggled(selected: seq<int>, id: int): (r: seq<int>)
    ensures id in selected ==> id !in r && JsArray.IsSubsequence(r, selected)
    ensures id in selected ==> forall x :: x in r <==> x in selected && x != id
    ensures id !in selected ==> r == selected + [id]
  {
    if id in selected then
      var r := JsArray.Filter(selected, x => x != id);
      assert forall x :: x in selected && x != id ==> x in r by {
        forall x | x in selected && x != id ensures x in r {
          var k :| 0 <= k < |selected| && selected[k] == x;
        }
      }
      r
    else selected + [id]
  }

  /** Toggling the same id twice gives back the same set of selected ids. */
  lemma ToggleTwiceKeepsIds(selected: seq<int>, id: int)
    ensures forall x :: x in Toggled(Toggled(selected, id), id) <==> x in selected
  {
  }

  /** The stored quantity of a selected food: `selectedQuantities[id] || 1`. */
  function StoredQuantity(quantities: map<int, int>, id: int): (q: int)
    ensures id in quantities && quantities[id] != 0 ==> q == quantities[id]
    ensures !(id in quantities && quantities[id] != 0) ==> q == 1
  {
    if id in quantities && quantities[id] != 0 then quantities[id] else 1
  }

  /** `Math.max(1, Math.min(cur + change, limit))`: never below one, never above the stock when there is any. */
  function ChangedQuantity(cur: int, change: int, limit: int): (q: int)
    ensures q >= 1
    ensures limit >= 1 ==> q <= limit
    ensures 1 <= cur + change <= limit ==> q == cur + change
    ensures limit >= 1 && cur + change > limit ==> q == limit
    ensures cur + change < 1 || limit < 1 ==> q == 1
    ensures q == 1 || q == cur + change || q == limit
  {
    var m := if cur + change < limit then cur + change else limit;
    if m < 1 then 1 else m
  }

  /** `foods.find(f => f.id === id)` */
  function FindFood(foods: seq<Food>, id: int): (r: Option<Food>)
    ensures r.None? <==> forall i :: 0 <= i < |foods| ==> foods[i].id != id
    ensures r.Some? ==> r.value.id == id && r.value in foods
  {
    JsArray.Find(foods, (f: Food) => f.id == id)
  }

  /** `handleQuantityChange` on the quantity map: nothing changes for an unknown food, otherwise only its entry. */
  function QuantitiesAfterChange(foods: seq<Food>, quantities: map<int, int>, id: int, change: int): (r: map<int, int>)
    ensures FindFood(foods, id).None? ==> r == quantities
    ensures FindFood(foods, id).Some? ==>
      && r.Keys == quantities.Keys + {id}
      && r[id] == ChangedQuantity(StoredQuantity(quantities, id), change, FindFood(foods, id).value.quantity)
      && forall k :: k in quantities && k != id ==> r[k] == quantities[k]
  {
    match FindFood(foods, id)
    case None => quantities
    case Some(food) => quantities[id := ChangedQuantity(StoredQuantity(quantities, id), change, food.quantity)]
  }

  /** The request body: one entry per selected id, in selection order, with its stored quantity. */
  function BuildIngredients(selected: seq<int>, quantities: map<int, int>): (r: seq<Ingredient>)
    ensures |r| == |selected|
    ensures forall i :: 0 <= i < |r| ==> r[i].id == selected[i] && r[i].quantity == StoredQuantity(quantities, selected[i])
    ensures (forall k :: k in quantities ==> quantities[k] >= 1) ==> forall i :: 0 <= i < |r| ==> r[i].quantity >= 1
  {
    seq(|selected|, i requires 0 <= i < |selected| => Ingredient(selected[i], StoredQuantity(quantities, selected[i])))
  }

  /** The screen's selection state: the food list, the selected ids, and the chosen quantities. */
  class FoodSelection {
    var foods: seq<Food>
    var selected: seq<int>
    var quantities: map<int, int>

    /** Every chosen quantity is at least one. */
    ghost predicate Valid()
      reads this
    {
      forall k :: k in quantities ==> quantities[k] >= 1
    }

    constructor (foods: seq<Food>)
      ensures Valid()
      ensures this.foods == foods && selected == [] && quantities == map[]
    {
      this.foods := foods;
      selected := [];
      quantities := map[];
    }

    /** `handleCheckboxChange`: toggle the id; a newly selected food starts at quantity one. */
    method ToggleSelection(id: int)
      requires Valid()
      modifies this
      ensures Valid()
      ensures foods == old(foods)
      ensures selected == Toggled(old(selected), id)
      ensures quantities == if id in old(selected) then old(quantities) else old(quantities)[id := 1]
    {
      var wasSelected := id in selected;
      selected := Toggled(selected, id);
      if !wasSelected {
        quantities := quantities[id := 1];
      }
    }

    /** `handleQuantityChange`: clamp the new quantity of a known food to one and its stock. */
    method ChangeQuantity(id: int, change: int)
      requires Valid()
      modifies this
      ensures Valid()
      ensures foods == old(foods) && selected == old(selected)
      ensures quantities == QuantitiesAfterChange(foods, old(quantities), id, change)
    {
      var food := FindFood(foods, id);
      if food.None? {
        return;
      }
      quantities := quantities[id := ChangedQuantity(StoredQuantity(quantities, id), change, food.value.quantity)];
    }

    /** The ingredients a generation request would carry now. */
    function Ingredients(): (r: seq<Ingredient>)
      reads this
      requires Valid()
      ensures r == BuildIngredients(selected, quantities)
      ensures forall i :: 0 <= i < |r| ==> r[i].quantity >= 1
    {
      BuildIngredients(selected, quantities)
    }
  }

  // ---- Recipe and fertilizer generation ---------------------------------------------

  datatype Product = Recipe | Fertilizer

  /** The response field that carries the generated text. */
  function ProductKey(p: Product): string {
    match p
    case Recipe => "recipe"
    case Fertilizer => "fertilizer"
  }

  function InvalidFormat(p: Product): string {
    match p
    case Recipe => "Format resep tidak valid"
    case Fertilizer => "Format pupuk tidak valid"
  }

  function DefaultFailure(p: Product): string {
    match p
    case Recipe => "Gagal membuat resep"
    case Fertilizer => "Gagal membuat pupuk"
  }

  /** What the screen does with the reply: show the cleaned text, or alert. */
  datatype Outcome = Generated(text: string) | Alerted(message: Message)

  /** The generated text of a reply, when it has one: `response.data && response.data[key]`. */
  function GeneratedField(p: Product, reply: Reply): Value {
    if reply.Answered? && Truthy(reply.response.data) then OptProp(reply.response.data, ProductKey(p)) else Undefined
  }

  /**
   * The reply handling of `generateRecipe` / `generateFertilizer`. A text field is cleaned and
   * shown; a missing or empty field is an invalid format; a field that is not a string makes
   * `replace` throw, which lands in the catch block with no server response.
   */
  function HandleGeneration(p: Product, reply: Reply): (r: Outcome)
    ensures r.Generated? <==> GeneratedField(p, reply).Str? && GeneratedField(p, reply).s != ""
    ensures r.Generated? ==> r.text == AiText.StripMarkers(GeneratedField(p, reply).s)
    ensures reply.Answered? && !Truthy(GeneratedField(p, reply)) ==> r == Alerted(Text(InvalidFormat(p)))
    ensures reply.Answered? && Truthy(GeneratedField(p, reply)) && !GeneratedField(p, reply).Str? ==>
              r == Alerted(Text(DefaultFailure(p)))
    ensures reply.Failed? ==> r == Alerted(ServerErrorOr(reply.failure, DefaultFailure(p)))
  {
    match reply
    case Failed(f) => Alerted(ServerErrorOr(f, DefaultFailure(p)))
    case Answered(_) =>
      var v := GeneratedField(p, reply);
      if !Truthy(v) then Alerted(Text(InvalidFormat(p)))
      else if v.Str? then Generated(AiText.StripMarkers(v.s))
      else Alerted(ServerErrorOr(TypeError("replace is not a function"), DefaultFailure(p)))
  }

  /** A press of the generate button: a warning and no request when nothing is selected. */
  datatype Generation = NeedSelection | Sent(ingredients: seq<Ingredient>, outcome: Outcome)

  function Generate(p: Product, selected: seq<int>, quantities: map<int, int>, reply: Reply): (r: Generation)
    ensures r.NeedSelection? <==> selected == []
    ensures r.Sent? ==> r.ingredients == BuildIngredients(selected, quantities) && r.outcome == HandleGeneration(p, reply)
  {
    if |selected| == 0 then NeedSelection
    else Sent(BuildIngredients(selected, quantities), HandleGeneration(p, reply))
  }

  /** The message shown when nothing is selected. */
  const SelectFirst := "Harap pilih makanan terlebih dahulu"
}
