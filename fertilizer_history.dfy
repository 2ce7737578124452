/**
 * The user's fertilizer history: cleaning and ingredient normalisation of each record, the
 * card title, the creation date display, and deletion by id. `parse` stands for
 * `new Date(text)` (None being an Invalid Date) and `format` for the locale formatting.
 */
module FertilizerHistory {
  import opened Wrappers
  import opened JsValue
  import JsText
  import JsArray
  import AiText
  import opened Http
  import opened Session

  const NoIngredients := "Tidak ada bahan"

  /** `Array.isArray(v) ? v.join(', ') : v || 'Tidak ada bahan'` */
  function NormaliseIngredients(v: Value): (r: Value)
    ensures v.Arr? ==> r == Str(JoinValues(v.items, ", "))
    ensures !v.Arr? && Truthy(v) ==> r == v
    ensures !v.Arr? && !Truthy(v) ==> r == Str(NoIngredients)
    ensures Truthy(r) <==> !(v.Arr? && JoinValues(v.items, ", ") == "")
  {
    if v.Arr? then Str(JoinValues(v.items, ", ")) else Or(v, Str(NoIngredients))
  }

  /** An empty list of ingredients joins to "", so its card shows no ingredients line. */
  lemma EmptyIngredientsHidden()
    ensures !Truthy(NormaliseIngredients(Arr([])))
  {
  }

  /**
   * One record of `fetchFertilizers`: the text cleaned of '#' and '*', the ingredients
   * normalised, every other field kept. Throws (None) unless the text is a string.
   */
  function CleanFertilizer(f: Value): (r: Option<Value>)
    ensures r.Some? <==> AiText.CleanField(f, "fertilizer").Some?
    ensures r.Some? ==>
      && r.value.Obj?
      && r.value.fields.Keys == f.fields.Keys + {"ingredients"}
      && r.value.fields["fertilizer"] == Str(AiText.StripMarkers(f.fields["fertilizer"].s))
      && r.value.fields["ingredients"] == NormaliseIngredients(Field(f, "ingredients"))
      && forall k :: k in f.fields && k != "fertilizer" && k != "ingredients" ==> r.value.fields[k] == f.fields[k]
  {
    match AiText.CleanField(f, "fertilizer")
    case None => None
    case Some(c) => Some(Obj(c.fields["ingredients" := NormaliseIngredients(Field(f, "ingredients"))]))
  }

  const LoadError := "Gagal mengambil data pupuk"

  datatype Load = Loaded(fertilizers: seq<Value>) | LoadFailed(message: Message)

  /** `fetchFertilizers` after the token check; a falsy payload is no fertilizers. */
  function FetchFertilizers(reply: Reply): (r: Load)
    ensures reply.Failed? ==> r == LoadFailed(ServerErrorOr(reply.failure, LoadError))
    ensures reply.Answered? && !Truthy(reply.response.data) ==> r == Loaded([])
    ensures reply.Answered? && Truthy(reply.response.data) ==>
      && (r.Loaded? <==> reply.response.data.Arr? && JsArray.AllDefined(reply.response.data.items, CleanFertilizer))
      && (r.Loaded? ==> |r.fertilizers| == |reply.response.data.items|
                        && forall i :: 0 <= i < |r.fertilizers| ==> CleanFertilizer(reply.response.data.items[i]) == Some(r.fertilizers[i]))
      && (r.LoadFailed? ==> r.message == Text(LoadError))
  {
    match reply
    case Failed(f) => LoadFailed(ServerErrorOr(f, LoadError))
    case Answered(response) =>
      if !Truthy(response.data) then Loaded([])
      else if !response.data.Arr? then LoadFailed(ServerErrorOr(TypeError("response.data.map is not a function"), LoadError))
      else
        match JsArray.MapChecked(response.data.items, CleanFertilizer)
        case None => LoadFailed(ServerErrorOr(TypeError("fertilizer.fertilizer.replace is not a function"), LoadError))
        case Some(cleaned) => Loaded(cleaned)
  }

  // ---- Card title ---------------------------------------------------------------------

  const TitleWords := 5
  const TitleLength := 50

  /** `s.length > 50 ? s.substring(0, 50) + '...' : s` */
  function Shorten(s: string): (r: string)
    ensures |s| <= TitleLength ==> r == s
    ensures |s| > TitleLength ==> r == s[..TitleLength] + "..."
    ensures |r| <= TitleLength + 3
  {
    if |s| > TitleLength then s[..TitleLength] + "..." else s
  }

  /** `getTitleFromFertilizer`: the first five whitespace-separated words, joined by one space, shortened. */
  function TitleFromFertilizer(text: string): (r: string)
    ensures |r| <= TitleLength + 3
  {
    var words := JsText.SplitWs(JsText.Trim(text));
    var k := if |words| < TitleWords then |words| else TitleWords;
    Shorten(JsText.Join(words[..k], " "))
  }

  /** For text that is words separated by single spaces, the title is built from at most its first five words. */
  lemma TitleOfWords(ws: seq<string>)
    requires |ws| >= 1 && forall i :: 0 <= i < |ws| ==> JsText.IsWord(ws[i])
    ensures TitleFromFertilizer(JsText.Join(ws, " ")) == Shorten(JsText.Join(ws[..if |ws| < TitleWords then |ws| else TitleWords], " "))
  {
    JsText.TrimJoinOfWords(ws);
    JsText.SplitJoinRoundTrip(ws);
    TitleOfSplit(JsText.Join(ws, " "), ws);
  }

  /**
   * For any text made of words apart by runs of whitespace, with whitespace around it, the
   * title is the first five words joined by single spaces, shortened.
   */
  lemma TitleOfSpacedWords(lead: string, ws: seq<string>, seps: seq<string>, trail: string)
    requires JsText.AllSpace(lead) && JsText.AllSpace(trail)
    requires |seps| + 1 == |ws| && JsText.SpaceRuns(seps)
    requires forall i :: 0 <= i < |ws| ==> JsText.IsWord(ws[i])
    ensures TitleFromFertilizer(lead + JsText.Glue(ws, seps) + trail)
            == Shorten(JsText.Join(ws[..if |ws| < TitleWords then |ws| else TitleWords], " "))
  {
    var g := JsText.Glue(ws, seps);
    JsText.GlueEnds(ws, seps);
    JsText.TrimAround(lead, g, trail);
    JsText.SplitGlued(ws, seps);
    TitleOfSplit(lead + g + trail, ws);
  }

  /** The title depends on the text only through the words its trimmed form splits into. */
  lemma TitleOfSplit(text: string, ws: seq<string>)
    requires JsText.SplitWs(JsText.Trim(text)) == ws
    ensures TitleFromFertilizer(text) == Shorten(JsText.Join(ws[..if |ws| < TitleWords then |ws| else TitleWords], " "))
  {
  }

  /** A title of up to five words and at most fifty characters is shown exactly as written. */
  lemma ShortTitleKept(ws: seq<string>)
    requires 1 <= |ws| <= TitleWords && forall i :: 0 <= i < |ws| ==> JsText.IsWord(ws[i])
    requires |JsText.Join(ws, " ")| <= TitleLength
    ensures TitleFromFertilizer(JsText.Join(ws, " ")) == JsText.Join(ws, " ")
  {
    TitleOfWords(ws);
    FewWordsKept(ws);
  }

  lemma FewWordsKept(ws: seq<string>)
    requires |ws| <= TitleWords
    ensures ws[..if |ws| < TitleWords then |ws| else TitleWords] == ws
  {
    assert ws[..|ws|] == ws;
  }

  /** Blank text gives an empty title. */
  lemma BlankTitle(text: string)
    requires JsText.AllSpace(text)
    ensures TitleFromFertilizer(text) == ""
  {
  }

  // ---- Creation date ------------------------------------------------------------------

  /** A MySQL datetime ("2025-10-18 18:17:36") has its first space turned into 'T'; other text is kept. */
  function IsoText(s: string): (r: string)
    ensures |r| == |s|
    ensures JsText.Includes(s, " ") && JsText.Includes(s, ":") ==> r == JsText.ReplaceFirst(s, ' ', 'T')
    ensures !(JsText.Includes(s, " ") && JsText.Includes(s, ":")) ==> r == s
  {
    if JsText.Includes(s, " ") && JsText.Includes(s, ":") then JsText.ReplaceFirst(s, ' ', 'T') else s
  }

  /** A date and a time separated by one space become the ISO form with 'T' in between. */
  lemma MySqlToIso(date: string, time: string)
    requires ' ' !in date && ':' in time
    ensures IsoText(date + " " + time) == date + "T" + time
  {
    var s := date + " " + time;
    BothMarksIncluded(date, time);
    FirstSpaceAfterDate(date, time);
    var r := JsText.ReplaceFirst(s, ' ', 'T');
    forall m | 0 <= m < |r| ensures r[m] == (date + "T" + time)[m] {
    }
  }

  lemma BothMarksIncluded(date: string, time: string)
    requires ':' in time
    ensures JsText.Includes(date + " " + time, " ") && JsText.Includes(date + " " + time, ":")
  {
    var s := date + " " + time;
    assert JsText.OccursAt(s, " ", |date|) by {
      assert s[|date|..|date| + 1] == [s[|date|]];
    }
    var k :| 0 <= k < |time| && time[k] == ':';
    assert JsText.OccursAt(s, ":", |date| + 1 + k) by {
      assert s[|date| + 1 + k] == ':';
      assert s[|date| + 1 + k..|date| + 2 + k] == [s[|date| + 1 + k]];
    }
  }

  lemma FirstSpaceAfterDate(date: string, time: string)
    requires ' ' !in date
    ensures JsText.IndexOf(date + " " + time, ' ') == |date|
  {
    var s := date + " " + time;
    assert s[|date|] == ' ';
    assert forall m :: 0 <= m < |date| ==> s[m] == date[m];
  }

  /** The instant `formatDate` works with: none for a missing, empty or non-string value, or an Invalid Date. */
  function ParseCreatedAt(v: Value, parse: string -> Option<int>): (t: Option<int>)
    ensures !(v.Str? && v.s != "") ==> t.None?
    ensures v.Str? && v.s != "" ==> t == parse(IsoText(v.s))
  {
    if !Truthy(v) || !v.Str? then None else parse(IsoText(v.s))
  }

  /**
   * `formatDate` as written: null on every early exit, and on the valid path the formatted
   * text is computed but the function falls off its end, returning undefined.
   */
  function FormatDateAsWritten(v: Value, parse: string -> Option<int>): (r: Value)
    ensures ParseCreatedAt(v, parse).None? ==> r == Null
    ensures ParseCreatedAt(v, parse).Some? ==> r == Undefined
  {
    if ParseCreatedAt(v, parse).None? then Null else Undefined
  }

  /** The date line: `formatDate(item.createdAt) || item.createdAt || 'Tidak diketahui'`. */
  function DateLine(formatted: Value, createdAt: Value): (r: Value)
    ensures r == formatted || r == createdAt || r == Str("Tidak diketahui")
    ensures Truthy(r)
    ensures Truthy(formatted) ==> r == formatted
    ensures !Truthy(formatted) && Truthy(createdAt) ==> r == createdAt
  {
    Or(formatted, Or(createdAt, Str("Tidak diketahui")))
  }

  /** As written, a valid date is never shown formatted: the line falls back to the raw value. */
  lemma FormattedDateIsLost(v: Value, parse: string -> Option<int>)
    requires ParseCreatedAt(v, parse).Some?
    ensures !Truthy(FormatDateAsWritten(v, parse))
    ensures DateLine(FormatDateAsWritten(v, parse), v) == v
  {
  }

  /** `formatDate` as intended: the formatted text of a valid date, null otherwise. */
  function FormatDate(v: Value, parse: string -> Option<int>, format: int -> string): (r: Option<string>)
    ensures r.None? <==> ParseCreatedAt(v, parse).None?
    ensures r.Some? ==> r.value == format(ParseCreatedAt(v, parse).value)
  {
    match ParseCreatedAt(v, parse)
    case None => None
    case Some(t) => Some(format(t))
  }

  function DateValue(d: Option<string>): Value {
    if d.Some? then Str(d.value) else Null
  }

  /** With the corrected formatter a valid date is shown formatted; an invalid one still falls back. */
  lemma DateLineShowsFormatted(v: Value, parse: string -> Option<int>, format: int -> string)
    ensures ParseCreatedAt(v, parse).Some? && format(ParseCreatedAt(v, parse).value) != "" ==>
              DateLine(DateValue(FormatDate(v, parse, format)), v) == Str(format(ParseCreatedAt(v, parse).value))
    ensures ParseCreatedAt(v, parse).None? ==>
              DateLine(DateValue(FormatDate(v, parse, format)), v) == DateLine(FormatDateAsWritten(v, parse), v)
  {
  }

  // ---- Screen state -------------------------------------------------------------------

  class FertilizerList {
    var fertilizers: seq<Value>

    constructor ()
      ensures fertilizers == []
    {
      fertilizers := [];
    }

    /** `fetchFertilizers`: with no token nothing is requested and the list stays as it was. */
    method Fetch(token: Option<string>, reply: Reply) returns (start: Start, load: Option<Load>)
      modifies this
      ensures start == TokenGuard(token)
      ensures start == ToLogin ==> load.None? && fertilizers == old(fertilizers)
      ensures start == Proceed ==> load == Some(FetchFertilizers(reply))
      ensures start == Proceed && FetchFertilizers(reply).Loaded? ==> fertilizers == FetchFertilizers(reply).fertilizers
      ensures start == Proceed && FetchFertilizers(reply).LoadFailed? ==> fertilizers == old(fertilizers)
    {
      start := TokenGuard(token);
      if start == ToLogin {
        return start, None;
      }
      var l := FetchFertilizers(reply);
      load := Some(l);
      if l.Loaded? {
        fertilizers := l.fertilizers;
      }
    }

    /** `deleteFertilizer` once confirmed: exactly the records with that id go when the server agrees. */
    method DeleteFertilizer(id: int, token: Option<string>, reply: Reply) returns (start: Start)
      modifies this
      ensures start == TokenGuard(token)
      ensures start == Proceed && reply.Answered? ==> fertilizers == RemoveById(old(fertilizers), id)
      ensures !(start == Proceed && reply.Answered?) ==> fertilizers == old(fertilizers)
    {
      start := TokenGuard(token);
      if start == Proceed && reply.Answered? {
        fertilizers := RemoveById(fertilizers, id);
      }
    }
  }
}
