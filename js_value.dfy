/**
 * JavaScript values as the screens receive them from the server: parsed JSON, plus
 * `undefined` for missing properties. Numbers are integers here (ids, counts, quantities).
 */
module JsValue {
  import opened Wrappers
  import JsText
  import JsArray

  datatype Value =
    | Undefined
    | Null
    | Bool(b: bool)
    | Num(n: int)
    | Str(s: string)
    | Arr(items: seq<Value>)
    | Obj(fields: map<string, Value>)

  /** JavaScript truthiness: `undefined`, `null`, `false`, `0` and `""` are falsy, everything else is truthy. */
  predicate Truthy(v: Value): (b: bool)
    ensures b <==> v !in {Undefined, Null, Bool(false), Num(0), Str("")}
  {
    match v
    case Undefined => false
    case Null => false
    case Bool(b) => b
    case Num(n) => n != 0
    case Str(s) => s != ""
    case Arr(_) => true
    case Obj(_) => true
  }

  /** `a || b` */
  function Or(a: Value, b: Value): (r: Value)
    ensures r == a || r == b
    ensures Truthy(a) ==> r == a
    ensures Truthy(r) <==> Truthy(a) || Truthy(b)
  {
    if Truthy(a) then a else b
  }

  /** The own property `key` of an object, `undefined` when it has none. */
  function Field(v: Value, key: string): Value
    requires v.Obj?
  {
    if key in v.fields then v.fields[key] else Undefined
  }

  /**
   * Property access `v.key`: a TypeError (None) on `null` and `undefined`, the field on an
   * object, and `undefined` on every other value (built-in properties of primitives and
   * arrays are not modelled; the screens never read them by these names).
   */
  function Prop(v: Value, key: string): (r: Option<Value>)
    ensures r.None? <==> v.Undefined? || v.Null?
    ensures v.Obj? ==> r == Some(Field(v, key))
    ensures !v.Obj? && r.Some? ==> r.value == Undefined
  {
    match v
    case Undefined => None
    case Null => None
    case Obj(_) => Some(Field(v, key))
    case _ => Some(Undefined)
  }

  /** Optional chaining `v?.key`: never throws. */
  function OptProp(v: Value, key: string): (r: Value)
    ensures r == if Prop(v, key).Some? then Prop(v, key).value else Undefined
  {
    match v
    case Obj(_) => Field(v, key)
    case _ => Undefined
  }

  /**
   * The envelope unwrap repeated in several screens:
   *   let x = data;
   *   if (data && typeof data === 'object') {
   *     if (Array.isArray(data)) x = data; else if (data[key]) x = data[key]; else if (data.data) x = data.data;
   *   }
   */
  function Unwrap(data: Value, key: string): (r: Value)
    ensures r == data || (data.Obj? && (r == Field(data, key) || r == Field(data, "data")))
    ensures r != data ==> Truthy(r)
    ensures !data.Obj? ==> r == data
    ensures data.Obj? && Truthy(Field(data, key)) ==> r == Field(data, key)
  {
    if data.Obj? then
      if Truthy(Field(data, key)) then Field(data, key)
      else if Truthy(Field(data, "data")) then Field(data, "data")
      else data
    else data
  }

  /** An object with one field. */
  function Wrap(key: string, v: Value): Value {
    Obj(map[key := v])
  }

  /** Every envelope shape the server may send gives back the list it carries, and a bare array is kept. */
  lemma UnwrapEnvelopes(xs: seq<Value>, key: string)
    ensures Unwrap(Arr(xs), key) == Arr(xs)
    ensures Unwrap(Wrap(key, Arr(xs)), key) == Arr(xs)
    ensures Unwrap(Wrap("data", Arr(xs)), key) == Arr(xs)
  {
  }

  /** Element-to-string conversion used by `Array.prototype.join`: `null` and `undefined` become "". */
  function JoinElement(v: Value): string
    decreases v
  {
    match v
    case Undefined => ""
    case Null => ""
    case Bool(b) => if b then "true" else "false"
    case Num(n) => JsText.IntToDecimal(n)
    case Str(s) => s
    case Arr(items) => JoinValues(items, ",")
    case Obj(_) => "[object Object]"
  }

  /** `xs.join(sep)` on an array of values. */
  function JoinValues(xs: seq<Value>, sep: string): (r: string)
    ensures |xs| >= 1 ==> JoinElement(xs[0]) <= r
    ensures sep != "" ==> (r == "" <==> |xs| == 0 || (|xs| == 1 && JoinElement(xs[0]) == ""))
    decreases xs
  {
    if |xs| == 0 then ""
    else if |xs| == 1 then JoinElement(xs[0])
    else JoinElement(xs[0]) + sep + JoinValues(xs[1..], sep)
  }

  /** Joining an array of strings is joining the strings themselves. */
  lemma {:induction false} JoinValuesOfStrings(ss: seq<string>, sep: string)
    ensures JoinValues(seq(|ss|, i requires 0 <= i < |ss| => Str(ss[i])), sep) == JsText.Join(ss, sep)
    decreases |ss|
  {
    var vs := seq(|ss|, i requires 0 <= i < |ss| => Str(ss[i]));
    if |ss| > 1 {
      var rest := seq(|ss[1..]|, i requires 0 <= i < |ss[1..]| => Str(ss[1..][i]));
      assert vs[1..] == rest;
      JoinValuesOfStrings(ss[1..], sep);
    }
  }

  /** `item => item.id !== id` on records. */
  function IdIsNot(id: int): Value -> bool {
    (v: Value) => OptProp(v, "id") != Num(id)
  }

  /** `items.filter(item => item.id !== id)`, the delete-by-id update of a list. */
  function RemoveById(items: seq<Value>, id: int): (r: seq<Value>)
    ensures JsArray.IsSubsequence(r, items)
    ensures forall i :: 0 <= i < |r| ==> OptProp(r[i], "id") != Num(id)
    ensures forall i :: 0 <= i < |items| && OptProp(items[i], "id") != Num(id) ==> items[i] in r
  {
    JsArray.Filter(items, IdIsNot(id))
  }

  /** What a delete removes is exactly the records with that id: kept plus removed is the whole list. */
  lemma RemoveByIdPartition(items: seq<Value>, id: int)
    ensures multiset(RemoveById(items, id)) + multiset(JsArray.Reject(items, IdIsNot(id))) == multiset(items)
    ensures forall i :: 0 <= i < |JsArray.Reject(items, IdIsNot(id))| ==>
              OptProp(JsArray.Reject(items, IdIsNot(id))[i], "id") == Num(id)
  {
    JsArray.FilterPartition(items, IdIsNot(id));
    JsArray.RejectFails(items, IdIsNot(id));
  }

  /** Deleting an id no record has changes nothing. */
  lemma RemoveAbsentId(items: seq<Value>, id: int)
    requires forall i :: 0 <= i < |items| ==> OptProp(items[i], "id") != Num(id)
    ensures RemoveById(items, id) == items
  {
    JsArray.AllPassFilter(items, IdIsNot(id));
  }
}
