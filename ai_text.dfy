/**
 * The sanitiser applied to every AI-generated text (recipes and fertilizer advice):
 * `text.replace(/[#*]/g, '')`, which drops the Markdown markers the model emits.
 */
module AiText {
  import opened Wrappers
  import opened JsValue
  import JsArray

  predicate IsMarker(c: char) {
    c == '#' || c == '*'
  }

  function NotMarker(c: char): bool {
    !IsMarker(c)
  }

  /** No '#' or '*' is left, every other character is kept, and their order is unchanged. */
  function StripMarkers(text: string): (r: string)
    ensures |r| <= |text|
    ensures forall i :: 0 <= i < |r| ==> !IsMarker(r[i])
    ensures forall i :: 0 <= i < |text| && !IsMarker(text[i]) ==> text[i] in r
    ensures JsArray.IsSubsequence(r, text)
  {
    JsArray.Filter(text, NotMarker)
  }

  /** Cleaning twice is cleaning once. */
  lemma StripIdempotent(text: string)
    ensures StripMarkers(StripMarkers(text)) == StripMarkers(text)
  {
    JsArray.FilterIdempotent(text, NotMarker);
  }

  /** Text without markers comes back unchanged. */
  lemma StripKeepsPlainText(text: string)
    requires forall i :: 0 <= i < |text| ==> !IsMarker(text[i])
    ensures StripMarkers(text) == text
  {
    JsArray.AllPassFilter(text, NotMarker);
  }

  /** Exactly the markers are removed: what is kept plus the removed markers is the text, as a multiset. */
  lemma StripRemovesOnlyMarkers(text: string)
    ensures multiset(StripMarkers(text)) + multiset(JsArray.Reject(text, NotMarker)) == multiset(text)
    ensures forall i :: 0 <= i < |JsArray.Reject(text, NotMarker)| ==> IsMarker(JsArray.Reject(text, NotMarker)[i])
  {
    JsArray.FilterPartition(text, NotMarker);
    JsArray.RejectFails(text, NotMarker);
  }

  /**
   * `{ ...record, [key]: record[key].replace(/[#*]/g, '') }`: a TypeError (None) unless the record is
   * an object whose `key` field is a string; otherwise only that field changes, and it is cleaned.
   */
  function CleanField(record: Value, key: string): (r: Option<Value>)
    ensures r.Some? <==> record.Obj? && key in record.fields && record.fields[key].Str?
    ensures r.Some? ==> && r.value.Obj?
                        && r.value.fields.Keys == record.fields.Keys
                        && r.value.fields[key] == Str(StripMarkers(record.fields[key].s))
                        && forall k :: k in record.fields && k != key ==> r.value.fields[k] == record.fields[k]
  {
    match Prop(record, key)
    case None => None
    case Some(v) =>
      if v.Str? && record.Obj? then Some(Obj(record.fields[key := Str(StripMarkers(v.s))])) else None
  }

  /** `items.map(item => ({ ...item, [key]: item[key].replace(/[#*]/g, '') }))`: None when any record throws. */
  function CleanList(items: seq<Value>, key: string): (r: Option<seq<Value>>)
    ensures r.Some? <==> forall i :: 0 <= i < |items| ==> CleanField(items[i], key).Some?
    ensures r.Some? ==> |r.value| == |items| && forall i :: 0 <= i < |items| ==> CleanField(items[i], key) == Some(r.value[i])
  {
    JsArray.MapChecked(items, (v: Value) => CleanField(v, key))
  }

  /** Every record of a cleaned list is an object whose `key` field is free of markers. */
  lemma CleanListIsClean(items: seq<Value>, key: string)
    requires CleanList(items, key).Some?
    ensures forall i :: 0 <= i < |items| ==>
              var c := CleanList(items, key).value[i];
              && c.Obj? && key in c.fields && c.fields[key].Str?
              && forall j :: 0 <= j < |c.fields[key].s| ==> !IsMarker(c.fields[key].s[j])
  {
  }
}
