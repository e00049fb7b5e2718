/**
 * `handleFormSubmit` of script.js: a honeypot field, then the trimmed
 * required fields, then the address pattern `^[^\s@]+@[^\s@]+\.[^\s@]+$`,
 * the first failing check deciding the alert.
 */
module ContactForm {
  import opened Common
  import opened JsStrings

  const BotAlert := "Bot detected!"
  const MissingFieldsAlert := "Please fill in all required fields"
  const InvalidEmailAlert := "Please enter a valid email address"

  datatype Submission =
    | BotDetected
    | MissingFields
    | InvalidEmail
    | Submitted(name: string, email: string, message: string)

  /** The alert shown at once; a submitted form shows its thank-you alert only after a delay. */
  function Alert(s: Submission): (alert: Option<string>)
    ensures alert.None? <==> s.Submitted?
  {
    match s
    case BotDetected => Some(BotAlert)
    case MissingFields => Some(MissingFieldsAlert)
    case InvalidEmail => Some(InvalidEmailAlert)
    case Submitted(_, _, _) => None
  }

  /** A non-empty run of characters that are neither whitespace nor '@' (`[^\s@]+`). */
  predicate PlainRun(t: string) {
    t != [] && forall k :: 0 <= k < |t| ==> !IsWhitespace(t[k]) && t[k] != '@'
  }

  /** The pattern matches with its literal '@' at `at` and its literal '.' at `dot`. */
  predicate MatchAt(s: string, at: int, dot: int) {
    && 0 <= at < dot < |s|
    && s[at] == '@' && s[dot] == '.'
    && PlainRun(s[..at]) && PlainRun(s[at + 1..dot]) && PlainRun(s[dot + 1..])
  }

  /** What the regular expression accepts: some choice of the '@' and the '.' splits `s` into three plain runs. */
  ghost predicate MatchesEmailPattern(s: string) {
    exists at, dot :: MatchAt(s, at, dot)
  }

  predicate NoWhitespace(s: string) {
    forall k :: 0 <= k < |s| ==> !IsWhitespace(s[k])
  }

  /**
   * The test the page runs, decided without search: no whitespace, a single
   * '@' that is not first, and a '.' in what follows it neither right after
   * the '@' nor last.
   */
  function IsValidEmail(s: string): bool {
    var at := IndexOf(s, '@');
    && at > 0
    && NoWhitespace(s)
    && '@' !in s[at + 1..]
    && |s| - at >= 4
    && '.' in s[at + 2..|s| - 1]
  }

  lemma ValidEmailMatches(s: string)
    requires IsValidEmail(s)
    ensures MatchesEmailPattern(s)
  {
    var at := IndexOf(s, '@');
    var mid := s[at + 2..|s| - 1];
    var k := IndexOf(mid, '.');
    var dot := at + 2 + k;
    assert s[dot] == '.';
    assert forall j :: 0 <= j < at ==> s[..at][j] == s[j] && s[j] != '@';
    assert forall j :: at < j < |s| ==> s[j] in s[at + 1..];
    assert MatchAt(s, at, dot);
  }

  lemma MatchIsValidEmail(s: string, at: int, dot: int)
    requires MatchAt(s, at, dot)
    ensures IsValidEmail(s)
  {
    var first := s[..at];
    var middle := s[at + 1..dot];
    var last := s[dot + 1..];
    assert s == first + ['@'] + (middle + [s[dot]] + last);
    IndexOfFirst(first, '@', middle + [s[dot]] + last);
    assert forall j :: at < j < dot ==> s[j] == middle[j - at - 1];
    assert forall j :: dot < j < |s| ==> s[j] == last[j - dot - 1];
    assert s[at + 1..] == middle + [s[dot]] + last;
    assert s[at + 2..|s| - 1][dot - at - 2] == '.';
  }

  /** The page's test accepts exactly what the regular expression matches. */
  lemma IsValidEmailIff(s: string)
    ensures IsValidEmail(s) <==> MatchesEmailPattern(s)
  {
    if IsValidEmail(s) {
      ValidEmailMatches(s);
    }
    if MatchesEmailPattern(s) {
      var at, dot :| MatchAt(s, at, dot);
      MatchIsValidEmail(s, at, dot);
    }
  }

  /**
   * The checks in their order. `website` is the honeypot field's value (None
   * when the form has none); the other three are the fields' raw values.
   */
  function HandleFormSubmit(website: Option<string>, name: string, email: string, message: string): (r: Submission)
    ensures r == BotDetected <==> website.Some? && website.value != ""
    ensures r == MissingFields <==>
      !(website.Some? && website.value != "")
      && (AllWhitespace(name) || AllWhitespace(email) || AllWhitespace(message))
    ensures r.Submitted? ==> r == Submitted(Trim(name), Trim(email), Trim(message))
    ensures r.Submitted? ==> r.name != [] && r.email != [] && r.message != []
  {
    if website.Some? && website.value != "" then BotDetected
    else
      var n, e, m := Trim(name), Trim(email), Trim(message);
      if n == [] || e == [] || m == [] then MissingFields
      else if !IsValidEmail(e) then InvalidEmail
      else Submitted(n, e, m)
  }

  /** Past the first two checks, the form is refused exactly when the trimmed address does not match the pattern. */
  lemma EmailCheckIsThePattern(website: Option<string>, name: string, email: string, message: string)
    requires !(website.Some? && website.value != "")
    requires Trim(name) != [] && Trim(email) != [] && Trim(message) != []
    ensures HandleFormSubmit(website, name, email, message) == InvalidEmail <==> !MatchesEmailPattern(Trim(email))
    ensures HandleFormSubmit(website, name, email, message).Submitted? <==> MatchesEmailPattern(Trim(email))
  {
    IsValidEmailIff(Trim(email));
  }
}
