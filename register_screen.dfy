/**
 * Registration: the three required fields, the email pattern
 * `^[a-zA-Z0-9._-]+@[a-zA-Z0-9.-]+\.[a-zA-Z]{2,4}$`, the password's minimum length, and the
 * payload, which always asks for the plain user role.
 */
module RegisterScreen {
  import opened Wrappers
  import JsText
  import opened Http
  import opened Session
  import opened FormRules

  predicate IsLetter(c: char) {
    'a' <= c <= 'z' || 'A' <= c <= 'Z'
  }

  predicate IsAlnum(c: char) {
    IsLetter(c) || '0' <= c <= '9'
  }

  /** `[a-zA-Z0-9._-]` */
  predicate LocalChar(c: char) {
    IsAlnum(c) || c == '.' || c == '_' || c == '-'
  }

  /** `[a-zA-Z0-9.-]` */
  predicate DomainChar(c: char) {
    IsAlnum(c) || c == '.' || c == '-'
  }

  predicate AllLocal(s: string) {
    forall i :: 0 <= i < |s| ==> LocalChar(s[i])
  }

  predicate AllDomain(s: string) {
    forall i :: 0 <= i < |s| ==> DomainChar(s[i])
  }

  predicate AllLetters(s: string) {
    forall i :: 0 <= i < |s| ==> IsLetter(s[i])
  }

  /**
   * The pattern matched with the '@' at index `at` and the dot before the top-level part at
   * index `dot`: a non-empty local part, a non-empty domain, and two to four letters.
   */
  predicate SplitAt(s: string, at: int, dot: int) {
    && 0 < at && at + 1 < dot < |s|
    && s[at] == '@' && s[dot] == '.'
    && AllLocal(s[..at])
    && AllDomain(s[at + 1..dot])
    && 2 <= |s| - dot - 1 <= 4
    && AllLetters(s[dot + 1..])
  }

  /** What the regular expression accepts: some way of cutting the text fits the pattern. */
  ghost predicate MatchesEmailPattern(s: string) {
    exists at, dot :: SplitAt(s, at, dot)
  }

  /** The index of the last `c` in `s`, or -1. */
  function LastIndexOf(s: string, c: char): (k: int)
    ensures -1 <= k < |s|
    ensures k >= 0 ==> s[k] == c
    ensures forall m :: k < m < |s| ==> s[m] != c
  {
    if s == [] then -1
    else if s[|s| - 1] == c then |s| - 1
    else LastIndexOf(s[..|s| - 1], c)
  }

  /** The pattern decided directly: cut at the first '@' and at the last '.'. */
  function IsValidEmail(s: string): (r: bool)
    ensures r <==> MatchesEmailPattern(s)
  {
    SplitIsUnique(s);
    SplitAt(s, JsText.IndexOf(s, '@'), LastIndexOf(s, '.'))
  }

  /** Any fitting cut is the one at the first '@' and the last '.'. */
  lemma SplitIsUnique(s: string)
    ensures forall at, dot :: SplitAt(s, at, dot) ==> at == JsText.IndexOf(s, '@') && dot == LastIndexOf(s, '.')
  {
  }

  /** An accepted address has exactly one '@', a non-empty part before it, and ends in a dot and 2 to 4 letters. */
  lemma EmailShape(s: string)
    requires IsValidEmail(s)
    ensures multiset(s)['@'] == 1
    ensures JsText.IndexOf(s, '@') > 0
    ensures var dot := LastIndexOf(s, '.');
            dot >= 0 && 2 <= |s| - dot - 1 <= 4 && AllLetters(s[dot + 1..])
  {
    OnlyOneAt(s, JsText.IndexOf(s, '@'), LastIndexOf(s, '.'));
  }

  lemma OnlyOneAt(s: string, at: int, dot: int)
    requires SplitAt(s, at, dot)
    ensures multiset(s)['@'] == 1
  {
    var local, rest := s[..at], s[at + 1..];
    assert s == local + [s[at]] + rest;
    assert '@' !in local by {
      forall i | 0 <= i < |local| ensures local[i] != '@' {
        assert LocalChar(local[i]);
      }
    }
    assert '@' !in rest by {
      var domain, tld := s[at + 1..dot], s[dot + 1..];
      assert rest == domain + ['.'] + tld;
      forall i | 0 <= i < |domain| ensures domain[i] != '@' {
        assert DomainChar(domain[i]);
      }
      forall i | 0 <= i < |tld| ensures tld[i] != '@' {
        assert IsLetter(tld[i]);
      }
    }
    assert multiset(s) == multiset(local) + multiset{s[at]} + multiset(rest);
  }

  /** An index holding `c` with no `c` before it is the one `IndexOf` finds. */
  lemma FirstAt(s: string, c: char, k: int)
    requires 0 <= k < |s| && s[k] == c && forall m :: 0 <= m < k ==> s[m] != c
    ensures JsText.IndexOf(s, c) == k
  {
  }

  /** An index holding `c` with no `c` after it is the one `LastIndexOf` finds. */
  lemma LastAt(s: string, c: char, k: int)
    requires 0 <= k < |s| && s[k] == c && forall m :: k < m < |s| ==> s[m] != c
    ensures LastIndexOf(s, c) == k
  {
  }

  /** Any non-empty local part, non-empty domain and ending of 2 to 4 letters, joined by '@' and '.', is accepted. */
  lemma ComposedEmailAccepted(local: string, domain: string, tld: string)
    requires local != "" && AllLocal(local)
    requires domain != "" && AllDomain(domain)
    requires 2 <= |tld| <= 4 && AllLetters(tld)
    ensures IsValidEmail(local + "@" + domain + "." + tld)
  {
    var s := local + "@" + domain + "." + tld;
    var at, dot := |local|, |local| + 1 + |domain|;
    assert s[..at] == local && s[at + 1..dot] == domain && s[dot + 1..] == tld;
    forall m | 0 <= m < at ensures s[m] != '@' {
      assert s[m] == local[m] && LocalChar(local[m]);
    }
    FirstAt(s, '@', at);
    forall m | dot < m < |s| ensures s[m] != '.' {
      assert s[m] == tld[m - dot - 1] && IsLetter(tld[m - dot - 1]);
    }
    LastAt(s, '.', dot);
    assert SplitAt(s, at, dot);
  }

  /** A concrete address with a five-letter ending, which the pattern refuses. */
  lemma EmailRefused()
    ensures !IsValidEmail("ana@mail.local")
  {
    var t := "ana@mail.local";
    LastAt(t, '.', 8);
  }

  const MinPasswordLength := 8

  function UsernameError(username: Input): (e: Option<string>)
    ensures e.None? <==> Filled(username)
    ensures e.Some? ==> e.value == "Username is required"
  {
    RequiredError(username, "Username is required")
  }

  /** `required`, then `pattern`. */
  function EmailError(email: Input): (e: Option<string>)
    ensures e.None? <==> Filled(email) && MatchesEmailPattern(email.value)
    ensures !Filled(email) ==> e == Some("Email is required")
    ensures Filled(email) && !MatchesEmailPattern(email.value) ==> e == Some("Invalid email format")
  {
    if !Filled(email) then Some("Email is required")
    else if !IsValidEmail(email.value) then Some("Invalid email format")
    else None
  }

  /** `required`, then `minLength: 8`. */
  function PasswordError(password: Input): (e: Option<string>)
    ensures e.None? <==> Filled(password) && JsText.Utf16Length(password.value) >= MinPasswordLength
    ensures !Filled(password) ==> e == Some("Password is required")
    ensures Filled(password) && JsText.Utf16Length(password.value) < MinPasswordLength ==>
              e == Some("Password must be at least 8 characters long")
  {
    if !Filled(password) then Some("Password is required")
    else if !LongEnough(password.value, MinPasswordLength) then Some("Password must be at least 8 characters long")
    else None
  }

  /** A password of fewer than four characters is always refused: even counted in UTF-16 units it is under eight. */
  lemma ShortPasswordRefused(password: string)
    requires |password| < 4
    ensures PasswordError(Some(password)).Some?
  {
  }

  /** The messages the form shows; `onSubmit` runs only when there are none. */
  function ValidateRegistration(username: Input, email: Input, password: Input): (errors: seq<string>)
    ensures errors == [] <==> && Filled(username)
                              && Filled(email) && MatchesEmailPattern(email.value)
                              && Filled(password) && JsText.Utf16Length(password.value) >= MinPasswordLength
  {
    var es := [UsernameError(username), EmailError(email), PasswordError(password)];
    assert es[0] == UsernameError(username) && es[1] == EmailError(email) && es[2] == PasswordError(password);
    Messages(es)
  }

  datatype RegisterRequest = RegisterRequest(username: string, email: string, password: string, role: string)

  /** The payload of `onSubmit`: the fields as typed and the fixed role 'user'. */
  function RegistrationPayload(username: string, email: string, password: string): (r: RegisterRequest)
    ensures r.role == RegularUser && r.role != SuperAdmin
    ensures r.username == username && r.email == email && r.password == password
  {
    RegisterRequest(username, email, password, RegularUser)
  }

  datatype Registration = Registered | RegistrationFailed(message: Message)

  function HandleRegistration(reply: Reply): (r: Registration)
    ensures r == Registered <==> reply.Answered?
    ensures reply.Failed? ==> r == RegistrationFailed(ServerErrorOr(reply.failure, "Registration failed. Please try again."))
  {
    match reply
    case Answered(_) => Registered
    case Failed(f) => RegistrationFailed(ServerErrorOr(f, "Registration failed. Please try again."))
  }
}
