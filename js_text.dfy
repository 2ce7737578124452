/**
 * The JavaScript string operations the screens use, on strings of Unicode scalar values.
 */
module JsText {

  /** The characters matched by `\s` in a regular expression and stripped by `String.prototype.trim`. */
  predicate IsSpace(c: char) {
    || c == ' ' || c == '\t' || c == '\n' || c == '\r' || c == '\U{000B}' || c == '\U{000C}'
    || c == '\U{00A0}' || c == '\U{1680}' || ('\U{2000}' <= c <= '\U{200A}')
    || c == '\U{2028}' || c == '\U{2029}' || c == '\U{202F}' || c == '\U{205F}'
    || c == '\U{3000}' || c == '\U{FEFF}'
  }

  predicate AllSpace(s: string) {
    forall i :: 0 <= i < |s| ==> IsSpace(s[i])
  }

  /** Leading whitespace removed. */
  function TrimStart(s: string): (r: string)
    ensures |r| <= |s| && r == s[|s| - |r|..]
    ensures AllSpace(s[..|s| - |r|])
    ensures r != [] ==> !IsSpace(r[0])
  {
    if s != [] && IsSpace(s[0]) then
      var r := TrimStart(s[1..]);
      SpacePrefixStep(s, r);
      r
    else s
  }

  /** A whitespace character before a whitespace prefix of the rest extends that prefix. */
  lemma SpacePrefixStep(s: string, r: string)
    requires s != [] && IsSpace(s[0])
    requires |r| <= |s| - 1 && r == s[1..][|s| - 1 - |r|..] && AllSpace(s[1..][..|s| - 1 - |r|])
    ensures r == s[|s| - |r|..] && AllSpace(s[..|s| - |r|])
  {
    assert s[..|s| - |r|] == [s[0]] + s[1..][..|s| - 1 - |r|];
  }

  /** Trailing whitespace removed. */
  function TrimEnd(s: string): (r: string)
    ensures |r| <= |s| && r == s[..|r|]
    ensures AllSpace(s[|r|..])
    ensures r != [] ==> !IsSpace(r[|r| - 1])
  {
    if s != [] && IsSpace(s[|s| - 1]) then
      var r := TrimEnd(s[..|s| - 1]);
      assert s[|r|..] == s[..|s| - 1][|r|..] + [s[|s| - 1]];
      r
    else s
  }

  /** Neither end of `t` is whitespace. */
  predicate NoOuterSpace(t: string) {
    t != "" ==> !IsSpace(t[0]) && !IsSpace(t[|t| - 1])
  }

  /** `s.trim()`: no whitespace at either end, empty exactly when `s` is all whitespace. */
  function Trim(s: string): (r: string)
    ensures |r| <= |s|
    ensures r == "" <==> AllSpace(s)
    ensures NoOuterSpace(r)
    ensures exists i, j :: TrimmedAt(s, i, j) && r == s[i..j]
  {
    var a := TrimStart(s);
    TrimBlank(s, a, TrimEnd(a));
    TrimIsSlice(s, a, TrimEnd(a));
    TrimEnd(a)
  }

  /** Cutting a whitespace prefix and then a whitespace suffix cuts a slice out of `s`. */
  lemma TrimIsSlice(s: string, a: string, r: string)
    requires |a| <= |s| && a == s[|s| - |a|..] && AllSpace(s[..|s| - |a|])
    requires |r| <= |a| && r == a[..|r|] && AllSpace(a[|r|..])
    ensures TrimmedAt(s, |s| - |a|, |s| - |a| + |r|) && r == s[|s| - |a|..|s| - |a| + |r|]
  {
    var i, j := |s| - |a|, |s| - |a| + |r|;
    assert s[j..] == a[|r|..];
  }

  /** `s[i..j]` is `s` with whitespace cut from both ends. */
  predicate TrimmedAt(s: string, i: int, j: int) {
    0 <= i <= j <= |s| && AllSpace(s[..i]) && AllSpace(s[j..])
  }

  lemma TrimBlank(s: string, a: string, r: string)
    requires a == TrimStart(s) && r == TrimEnd(a)
    ensures r == "" <==> AllSpace(s)
  {
    var k := |s| - |a|;
    if r == "" {
      forall i | 0 <= i < k ensures IsSpace(s[i]) {
        assert s[i] == s[..k][i];
      }
    }
  }

  /** ASCII lower-casing of one character (Unicode case mapping is not modelled). */
  function LowerChar(c: char): char {
    if 'A' <= c <= 'Z' then (c as int - 'A' as int + 'a' as int) as char else c
  }

  /** `s.toLowerCase()`, ASCII letters only. */
  function Lower(s: string): (r: string)
    ensures |r| == |s| && forall i :: 0 <= i < |s| ==> r[i] == LowerChar(s[i])
  {
    seq(|s|, i requires 0 <= i < |s| => LowerChar(s[i]))
  }

  /** `needle` occurs in `hay` starting at index `i`. */
  ghost predicate OccursAt(hay: string, needle: string, i: int) {
    0 <= i && i + |needle| <= |hay| && hay[i..i + |needle|] == needle
  }

  /** `hay.includes(needle)`: some slice of `hay` equals `needle` (the empty needle is always found). */
  function Includes(hay: string, needle: string): (r: bool)
    ensures r <==> exists i :: OccursAt(hay, needle, i)
    decreases |hay|
  {
    if needle <= hay then
      assert OccursAt(hay, needle, 0);
      true
    else if hay == [] then
      false
    else
      OccursInTail(hay, needle);
      Includes(hay[1..], needle)
  }

  /** When `hay` does not start with `needle`, an occurrence is one in the rest of `hay`. */
  lemma OccursInTail(hay: string, needle: string)
    requires hay != [] && !(needle <= hay)
    ensures (exists i :: OccursAt(hay, needle, i)) <==> exists j :: OccursAt(hay[1..], needle, j)
  {
    if exists j :: OccursAt(hay[1..], needle, j) {
      var j :| OccursAt(hay[1..], needle, j);
      assert hay[1..][j..j + |needle|] == hay[j + 1..j + 1 + |needle|];
      assert OccursAt(hay, needle, j + 1);
    }
    if exists i :: OccursAt(hay, needle, i) {
      var i :| OccursAt(hay, needle, i);
      assert i > 0;
      assert hay[1..][i - 1..i - 1 + |needle|] == hay[i..i + |needle|];
      assert OccursAt(hay[1..], needle, i - 1);
    }
  }

  predicate IsDigit(c: char) {
    '0' <= c <= '9'
  }

  function DigitChar(d: nat): (c: char)
    requires d < 10
    ensures IsDigit(c) && c as int - '0' as int == d
  {
    ('0' as int + d) as char
  }

  /** The decimal digits of `n`, as `String(n)` renders a non-negative integer. */
  function NatToDecimal(n: nat): (r: string)
    ensures |r| >= 1 && forall i :: 0 <= i < |r| ==> IsDigit(r[i])
  {
    if n < 10 then [DigitChar(n)] else NatToDecimal(n / 10) + [DigitChar(n % 10)]
  }

  /** `String(n)` for an integer. */
  function IntToDecimal(n: int): string {
    if n < 0 then "-" + NatToDecimal(-n) else NatToDecimal(n)
  }

  /** The number a string of decimal digits denotes. */
  function DecimalValue(s: string): nat
    requires forall i :: 0 <= i < |s| ==> IsDigit(s[i])
  {
    if s == [] then 0
    else
      assert IsDigit(s[|s| - 1]);
      DecimalValue(s[..|s| - 1]) * 10 + (s[|s| - 1] as int - '0' as int)
  }

  /** Rendering a count in decimal loses nothing: reading the digits back gives the count. */
  lemma {:induction false} DecimalRoundTrip(n: nat)
    ensures DecimalValue(NatToDecimal(n)) == n
  {
    if n >= 10 {
      var s := NatToDecimal(n);
      assert s[..|s| - 1] == NatToDecimal(n / 10);
      DecimalRoundTrip(n / 10);
    }
  }

  /** `parts.join(sep)`. */
  function Join(parts: seq<string>, sep: string): (r: string)
    ensures |parts| >= 1 ==> parts[0] <= r
    ensures sep != "" ==> (r == "" <==> |parts| == 0 || (|parts| == 1 && parts[0] == ""))
  {
    if |parts| == 0 then ""
    else if |parts| == 1 then parts[0]
    else parts[0] + sep + Join(parts[1..], sep)
  }

  /** `s` with its leading run of whitespace removed. */
  function DropSpaces(s: string): (r: string)
    ensures |r| <= |s|
    ensures r != [] ==> !IsSpace(r[0])
  {
    if s != [] && IsSpace(s[0]) then DropSpaces(s[1..]) else s
  }

  /** `s.split(/\s+/)`: the pieces between maximal runs of whitespace (`""` gives `[""]`). */
  function SplitWs(s: string): (r: seq<string>)
    ensures |r| >= 1
    ensures forall i :: 0 <= i < |r| ==> NoSpaceIn(r[i])
    decreases |s|
  {
    if s == [] then [""]
    else if IsSpace(s[0]) then [""] + SplitWs(DropSpaces(s))
    else
      var rest := SplitWs(s[1..]);
      [[s[0]] + rest[0]] + rest[1..]
  }

  /** `w` holds no whitespace character. */
  predicate NoSpaceIn(w: string) {
    forall i :: 0 <= i < |w| ==> !IsSpace(w[i])
  }

  /** A word as `split(/\s+/)` produces it from trimmed text: non-empty and free of whitespace. */
  predicate IsWord(w: string) {
    w != "" && NoSpaceIn(w)
  }

  /** Splitting a word followed by whitespace and more text yields the word, then the split of the rest. */
  lemma {:induction false} SplitWordThenSpace(w: string, rest: string)
    requires IsWord(w)
    requires rest == [] || !IsSpace(rest[0])
    ensures SplitWs(w + " " + rest) == [w] + SplitWs(rest)
    decreases |w|
  {
    if |w| == 1 {
      var s := w + " " + rest;
      assert s[1..] == " " + rest;
      assert (" " + rest)[1..] == rest;
      assert DropSpaces(" " + rest) == rest;
      assert SplitWs(" " + rest) == [""] + SplitWs(rest);
      assert [w[0]] + "" == w;
    } else {
      var s := w + " " + rest;
      assert s[1..] == w[1..] + " " + rest;
      SplitWordThenSpace(w[1..], rest);
      assert [w[0]] + w[1..] == w;
    }
  }

  /** Joining words with single spaces and splitting on whitespace gives the words back. */
  lemma {:induction false} SplitJoinRoundTrip(ws: seq<string>)
    requires |ws| >= 1 && forall i :: 0 <= i < |ws| ==> IsWord(ws[i])
    ensures SplitWs(Join(ws, " ")) == ws
    decreases |ws|
  {
    if |ws| == 1 {
      SplitSingleWord(ws[0]);
    } else {
      var rest := Join(ws[1..], " ");
      JoinStartsWith(ws[1..]);
      SplitWordThenSpace(ws[0], rest);
      SplitJoinRoundTrip(ws[1..]);
      assert [ws[0]] + ws[1..] == ws;
    }
  }

  lemma {:induction false} SplitSingleWord(w: string)
    requires IsWord(w)
    ensures SplitWs(w) == [w]
    decreases |w|
  {
    if |w| == 1 {
      assert w[1..] == "";
      assert [w[0]] + "" == w;
    } else {
      SplitSingleWord(w[1..]);
      assert [w[0]] + w[1..] == w;
    }
  }

  /** Dropping a run of whitespace from its start leaves the text that follows it. */
  lemma {:induction false} DropSpaceRun(sep: string, rest: string)
    requires AllSpace(sep)
    requires rest == [] || !IsSpace(rest[0])
    ensures DropSpaces(sep + rest) == rest
    decreases |sep|
  {
    if sep != [] {
      assert (sep + rest)[1..] == sep[1..] + rest;
      DropSpaceRun(sep[1..], rest);
    }
  }

  /** Splitting a word, a non-empty run of whitespace and more text yields the word, then the split of the rest. */
  lemma {:induction false} SplitWordThenSep(w: string, sep: string, rest: string)
    requires IsWord(w)
    requires sep != [] && AllSpace(sep)
    requires rest == [] || !IsSpace(rest[0])
    ensures SplitWs(w + sep + rest) == [w] + SplitWs(rest)
    decreases |w|
  {
    var s := w + sep + rest;
    if |w| == 1 {
      assert s[1..] == sep + rest;
      DropSpaceRun(sep, rest);
      assert SplitWs(sep + rest) == [""] + SplitWs(rest);
      assert [w[0]] + "" == w;
    } else {
      assert s[1..] == w[1..] + sep + rest;
      SplitWordThenSep(w[1..], sep, rest);
      assert [w[0]] + w[1..] == w;
    }
  }

  /** Words separated by the given runs of text: `ws[0] + seps[0] + ws[1] + ... + ws[|ws| - 1]`. */
  function Glue(ws: seq<string>, seps: seq<string>): string
    requires |seps| + 1 == |ws|
    decreases |ws|
  {
    if |ws| == 1 then ws[0] else ws[0] + seps[0] + Glue(ws[1..], seps[1..])
  }

  /** Each separator is a non-empty run of whitespace. */
  predicate SpaceRuns(seps: seq<string>) {
    forall i :: 0 <= i < |seps| ==> seps[i] != [] && AllSpace(seps[i])
  }

  /** Words apart by any runs of whitespace split back into those words. */
  lemma {:induction false} SplitGlued(ws: seq<string>, seps: seq<string>)
    requires |seps| + 1 == |ws| && SpaceRuns(seps)
    requires forall i :: 0 <= i < |ws| ==> IsWord(ws[i])
    ensures SplitWs(Glue(ws, seps)) == ws
    decreases |ws|
  {
    if |ws| == 1 {
      SplitSingleWord(ws[0]);
    } else {
      var rest := Glue(ws[1..], seps[1..]);
      GlueEnds(ws[1..], seps[1..]);
      assert ws[0] + seps[0] + rest == Glue(ws, seps);
      SplitWordThenSep(ws[0], seps[0], rest);
      SplitGlued(ws[1..], seps[1..]);
      assert [ws[0]] + ws[1..] == ws;
    }
  }

  /** Glued words start and end with a non-space character. */
  lemma {:induction false} GlueEnds(ws: seq<string>, seps: seq<string>)
    requires |seps| + 1 == |ws| && SpaceRuns(seps)
    requires forall i :: 0 <= i < |ws| ==> IsWord(ws[i])
    ensures var g := Glue(ws, seps); g != [] && !IsSpace(g[0]) && !IsSpace(g[|g| - 1])
    decreases |ws|
  {
    if |ws| > 1 {
      GlueEnds(ws[1..], seps[1..]);
      var rest := Glue(ws[1..], seps[1..]);
      var g := ws[0] + seps[0] + rest;
      assert g[0] == ws[0][0];
      assert g[|g| - 1] == rest[|rest| - 1];
    }
  }

  /** Leading whitespace before text that starts with a non-space is all `TrimStart` removes. */
  lemma {:induction false} TrimStartOf(lead: string, x: string)
    requires AllSpace(lead) && (x == [] || !IsSpace(x[0]))
    ensures TrimStart(lead + x) == x
    decreases |lead|
  {
    if lead != [] {
      assert (lead + x)[1..] == lead[1..] + x;
      TrimStartOf(lead[1..], x);
    }
  }

  /** Trailing whitespace after text that ends with a non-space is all `TrimEnd` removes. */
  lemma {:induction false} TrimEndOf(x: string, trail: string)
    requires AllSpace(trail) && (x == [] || !IsSpace(x[|x| - 1]))
    ensures TrimEnd(x + trail) == x
    decreases |trail|
  {
    if trail != [] {
      assert (x + trail)[..|x + trail| - 1] == x + trail[..|trail| - 1];
      TrimEndOf(x, trail[..|trail| - 1]);
    } else {
      assert x + trail == x;
    }
  }

  /** `trim` removes exactly the whitespace around text with no whitespace at its ends. */
  lemma TrimAround(lead: string, x: string, trail: string)
    requires AllSpace(lead) && AllSpace(trail)
    requires x != [] && NoOuterSpace(x)
    ensures Trim(lead + x + trail) == x
  {
    assert lead + x + trail == lead + (x + trail);
    TrimStartOf(lead, x + trail);
    TrimEndOf(x, trail);
  }

  /** A join of words starts with a non-space character. */
  lemma {:induction false} JoinStartsWith(ws: seq<string>)
    requires |ws| >= 1 && forall i :: 0 <= i < |ws| ==> IsWord(ws[i])
    ensures Join(ws, " ") != [] && !IsSpace(Join(ws, " ")[0])
  {
    if |ws| > 1 {
      assert Join(ws, " ")[0] == ws[0][0];
    }
  }

  /** A join of words ends with a non-space character. */
  lemma {:induction false} JoinEndsWith(ws: seq<string>)
    requires |ws| >= 1 && forall i :: 0 <= i < |ws| ==> IsWord(ws[i])
    ensures Join(ws, " ") != [] && !IsSpace(Join(ws, " ")[|Join(ws, " ")| - 1])
    decreases |ws|
  {
    if |ws| > 1 {
      JoinEndsWith(ws[1..]);
      var rest := Join(ws[1..], " ");
      assert Join(ws, " ") == ws[0] + " " + rest;
      assert Join(ws, " ")[|Join(ws, " ")| - 1] == rest[|rest| - 1];
    }
  }

  /** Words joined by single spaces have nothing to trim. */
  lemma TrimJoinOfWords(ws: seq<string>)
    requires |ws| >= 1 && forall i :: 0 <= i < |ws| ==> IsWord(ws[i])
    ensures Trim(Join(ws, " ")) == Join(ws, " ")
  {
    JoinStartsWith(ws);
    JoinEndsWith(ws);
  }

  /** The index of the first `c` in `s`, or `|s|` when there is none. */
  function IndexOf(s: string, c: char): (k: nat)
    ensures k <= |s|
    ensures k < |s| ==> s[k] == c
    ensures forall m :: 0 <= m < k ==> s[m] != c
  {
    if s == [] then 0 else if s[0] == c then 0 else 1 + IndexOf(s[1..], c)
  }

  /** `s.replace(from, to)` with a one-character string pattern: only the first occurrence changes. */
  function ReplaceFirst(s: string, from: char, to: char): (r: string)
    ensures |r| == |s|
    ensures forall m :: 0 <= m < |s| ==> r[m] == if m == IndexOf(s, from) then to else s[m]
  {
    if s == [] then []
    else if s[0] == from then [to] + s[1..]
    else [s[0]] + ReplaceFirst(s[1..], from, to)
  }

  /** The `length` JavaScript reports: characters outside the Basic Multilingual Plane count twice. */
  function Utf16Length(s: string): (n: nat)
    ensures |s| <= n <= 2 * |s|
  {
    if s == [] then 0 else (if s[0] as int > 0xFFFF then 2 else 1) + Utf16Length(s[1..])
  }
}
