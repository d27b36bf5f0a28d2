/**
 * The sign-up e-mail check: a chain of string tests that stops at the first
 * one that fails.  The format and blocked-domain tests run first; the
 * advanced check then rejects disposable domains, misspelt popular domains
 * and domains without mail servers, and warns about role addresses.  The
 * DNS lookup is an input: `Some(hasAnswers)` when it returned, `None` when
 * it failed, which the check treats as a pass.
 */
module EmailValidation {
  import opened Wrappers
  import opened Text

  datatype Verdict = Verdict(isValid: bool, isDeliverable: bool, error: Option<string>)

  function Reject(message: string): Verdict { Verdict(false, false, Some(message)) }

  const Accept: Verdict := Verdict(true, true, None)

  const FormatError: string := "Please enter a valid email address format"
  const BlockedError: string := "Please use a valid email address"
  const DisposableError: string := "Disposable email addresses are not allowed"
  const NoServersError: string := "Domain does not have email servers configured"
  const NoMailError: string := "Domain does not accept emails"
  const RoleWarning: string := "Role-based emails may not receive important notifications"

  const BlockedDomains: seq<string> := [
    "test.com", "example.com", "fake.com", "invalid.com",
    "temp.com", "dummy.com", "123.com", "abc.com"
  ]

  const DisposableDomains: seq<string> := [
    "10minutemail.com", "tempmail.org", "guerrillamail.com",
    "mailinator.com", "yopmail.com", "sharklasers.com",
    "temp-mail.org", "throwaway.email", "maildrop.cc",
    "getnada.com", "mohmal.com", "mailnesia.com",
    "trashmail.com", "dispostable.com", "tempail.com",
    "emailondeck.com", "mytrashmail.com", "spamgourmet.com"
  ]

  /** Each popular domain with the misspellings that are taken for it, in table order. */
  const PopularDomains: seq<(string, seq<string>)> := [
    ("gmail.com", ["gmai.com", "gmial.com", "gmail.co", "gmai.co", "gnail.com"]),
    ("yahoo.com", ["yaho.com", "yahoo.co", "yhoo.com", "yahooo.com"]),
    ("hotmail.com", ["hotmai.com", "hotmial.com", "hotmail.co", "hotmial.co"]),
    ("outlook.com", ["outlok.com", "outlook.co", "outloo.com", "outlok.co"]),
    ("icloud.com", ["iclod.com", "icloud.co", "icloude.com"]),
    ("protonmail.com", ["protonmai.com", "protonmail.co", "protonmial.com"])
  ]

  const RolePrefixes: seq<string> := [
    "admin", "info", "support", "noreply", "no-reply",
    "contact", "sales", "help", "webmaster", "postmaster"
  ]

  // ---------------------------------------------------------------------
  // The format

  predicate NoWhitespace(s: string) { forall k :: 0 <= k < |s| ==> !IsWhitespace(s[k]) }

  /** A run of the class `[^\s@]+`. */
  ghost predicate Piece(s: string) { s != [] && NoWhitespace(s) && Lacks(s, '@') }

  /** The language of `/^[^\s@]+@[^\s@]+\.[^\s@]+$/`. */
  ghost predicate MatchesRegex(email: string)
  {
    exists a, b, c :: Piece(a) && Piece(b) && Piece(c) && email == a + "@" + b + "." + c
  }

  /** A dot that is neither the first nor the last character. */
  predicate InnerDot(d: string) { |d| >= 3 && '.' in d[1..|d| - 1] }

  /**
   * `emailRegex.test(email)`, as conditions on `email.split('@')`: no white
   * space, exactly one `@`, a non-empty local part and an inner dot in the
   * domain.
   */
  predicate FormatOk(email: string)
    ensures FormatOk(email) ==>
      var parts := SplitOn(email, '@');
      |parts| == 2 && email == parts[0] + "@" + parts[1] && Lacks(parts[0], '@') && Lacks(parts[1], '@')
  {
    var parts := SplitOn(email, '@');
    if NoWhitespace(email) && |parts| == 2 then
      SplitTwo(email, '@');
      parts[0] != [] && InnerDot(parts[1])
    else false
  }

  lemma NoWhitespaceAppend(x: string, y: string)
    ensures NoWhitespace(x + y) <==> NoWhitespace(x) && NoWhitespace(y)
  {
    if NoWhitespace(x + y) {
      forall k | 0 <= k < |x| ensures !IsWhitespace(x[k]) {
        assert x[k] == (x + y)[k];
      }
      forall k | 0 <= k < |y| ensures !IsWhitespace(y[k]) {
        assert y[k] == (x + y)[|x| + k];
      }
    }
    if NoWhitespace(x) && NoWhitespace(y) {
      forall k | 0 <= k < |x + y| ensures !IsWhitespace((x + y)[k]) {
        if k < |x| {
          assert (x + y)[k] == x[k];
        } else {
          assert (x + y)[k] == y[k - |x|];
        }
      }
    }
  }

  /** Both sides of a separator are clean exactly when the whole is clean apart from the separator. */
  lemma AroundSeparator(x: string, sep: char, y: string)
    requires !IsWhitespace(sep)
    ensures NoWhitespace(x + [sep] + y) <==> NoWhitespace(x) && NoWhitespace(y)
    ensures sep != '@' ==> (Lacks(x + [sep] + y, '@') <==> Lacks(x, '@') && Lacks(y, '@'))
  {
    NoWhitespaceAppend(x + [sep], y);
    NoWhitespaceAppend(x, [sep]);
    LacksAppend(x + [sep], y, '@');
    LacksAppend(x, [sep], '@');
  }

  /** The split conditions accept exactly the strings the regular expression matches. */
  lemma FormatOkIsRegex(email: string)
    ensures FormatOk(email) <==> MatchesRegex(email)
  {
    if FormatOk(email) {
      FormatOkMatches(email);
    }
    if MatchesRegex(email) {
      var a, b, c :| Piece(a) && Piece(b) && Piece(c) && email == a + "@" + b + "." + c;
      MatchesFormatOk(a, b, c);
    }
  }

  lemma FormatOkMatches(email: string)
    requires FormatOk(email)
    ensures MatchesRegex(email)
  {
    var parts := SplitOn(email, '@');
    SplitTwo(email, '@');
    var a, d := parts[0], parts[1];
    NoWhitespaceAppend(a + ['@'], d);
    NoWhitespaceAppend(a, ['@']);
    var k' :| 0 <= k' < |d[1..|d| - 1]| && d[1..|d| - 1][k'] == '.';
    var b, c := d[..k' + 1], d[k' + 2..];
    assert d == b + ['.'] + c;
    AroundSeparator(b, '.', c);
    assert Piece(a) && Piece(b) && Piece(c);
    assert email == a + "@" + b + "." + c;
  }

  lemma MatchesFormatOk(a: string, b: string, c: string)
    requires Piece(a) && Piece(b) && Piece(c)
    ensures FormatOk(a + "@" + b + "." + c)
    ensures SplitOn(a + "@" + b + "." + c, '@') == [a, b + "." + c]
  {
    var d := b + ['.'] + c;
    var email := a + "@" + b + "." + c;
    assert email == a + ['@'] + d;
    AroundSeparator(b, '.', c);
    AroundSeparator(a, '@', d);
    LacksAppend(a + ['@'], d, '@');
    SplitOnce(a, '@', d);
    assert d[1..|d| - 1][|b| - 1] == '.';
  }

  /** `email.split('@')[1].toLowerCase()`. */
  function Domain(email: string): (d: string)
    requires FormatOk(email)
    ensures HasNoUpper(d) && 3 <= |d| == |SplitOn(email, '@')[1]|
  {
    ToLower(SplitOn(email, '@')[1])
  }

  /** `email.split('@')[0].toLowerCase()`. */
  function LocalPart(email: string): (l: string)
    requires FormatOk(email)
    ensures HasNoUpper(l) && 1 <= |l| == |SplitOn(email, '@')[0]|
  {
    ToLower(SplitOn(email, '@')[0])
  }

  /** An accepted address is its local part, an `@` and its domain, up to case. */
  lemma FormatParts(email: string)
    requires FormatOk(email)
    ensures ToLower(email) == LocalPart(email) + "@" + Domain(email)
  {
    var parts := SplitOn(email, '@');
    SplitTwo(email, '@');
    var a, b := parts[0], parts[1];
    assert ToLower("@") == "@" by {
      assert LowerChar('@') == '@';
    }
    calc {
      ToLower(email);
      ToLower((a + "@") + b);
      { ToLowerAppend(a + "@", b); }
      ToLower(a + "@") + ToLower(b);
      { ToLowerAppend(a, "@"); }
      ToLower(a) + "@" + ToLower(b);
    }
  }

  // ---------------------------------------------------------------------
  // Popular-domain misspellings

  /**
   * The `for (const [correct, typos] of ...)` loop from row i on, as
   * written: the first row with a misspelling that occurs anywhere in the
   * domain names the suggested domain.
   */
  function TypoFrom(domain: string, i: nat): (r: Option<string>)
    requires i <= |PopularDomains|
    ensures r.Some? ==> exists j :: i <= j < |PopularDomains| && r.value == PopularDomains[j].0 &&
                                    ContainsAny(domain, PopularDomains[j].1) &&
                                    forall k :: i <= k < j ==> !ContainsAny(domain, PopularDomains[k].1)
    ensures r.None? <==> forall j :: i <= j < |PopularDomains| ==> !ContainsAny(domain, PopularDomains[j].1)
    decreases |PopularDomains| - i
  {
    if i == |PopularDomains| then None
    else if ContainsAny(domain, PopularDomains[i].1) then Some(PopularDomains[i].0)
    else TypoFrom(domain, i + 1)
  }

  /** The whole loop: the first row, in table order, with a misspelling occurring in the domain. */
  function TypoSuggestion(domain: string): (r: Option<string>)
    ensures r.Some? ==> exists j :: 0 <= j < |PopularDomains| && r.value == PopularDomains[j].0 &&
                                    ContainsAny(domain, PopularDomains[j].1) &&
                                    forall k :: 0 <= k < j ==> !ContainsAny(domain, PopularDomains[k].1)
    ensures r.None? <==> forall j :: 0 <= j < |PopularDomains| ==> !ContainsAny(domain, PopularDomains[j].1)
  {
    TypoFrom(domain, 0)
  }

  /** Each correct spelling is one of its own listed misspellings followed by an `m`. */
  lemma DotCoListed(i: nat)
    requires i < |PopularDomains|
    ensures exists j :: 0 <= j < |PopularDomains[i].1| && PopularDomains[i].0 == PopularDomains[i].1[j] + "m"
  {
    var row := PopularDomains[i];
    var j := if i == 0 || i == 2 then 2 else 1;
    assert row.0 == row.1[j] + "m";
  }

  /** A string contains its own prefixes. */
  lemma ContainsPrefix(s: string, p: string)
    requires |p| <= |s| && s[..|p|] == p
    ensures Contains(s, p)
  {
    assert OccursAt(s, p, 0);
  }

  /**
   * As written, every correctly spelt popular domain is taken for a
   * misspelling: "gmail.co" occurs in "gmail.com", and likewise for the
   * other five.
   */
  lemma TypoFlagsCorrectDomain(i: nat)
    requires i < |PopularDomains|
    ensures TypoSuggestion(PopularDomains[i].0).Some?
  {
    var correct := PopularDomains[i].0;
    DotCoListed(i);
    var j :| 0 <= j < |PopularDomains[i].1| && correct == PopularDomains[i].1[j] + "m";
    var typo := PopularDomains[i].1[j];
    assert correct[..|typo|] == typo;
    ContainsPrefix(correct, typo);
    assert ContainsAny(correct, PopularDomains[i].1);
  }

  /** The evidently intended rule: a row applies when the domain is exactly one of its misspellings. */
  function ExactTypoFrom(domain: string, i: nat): (r: Option<string>)
    requires i <= |PopularDomains|
    ensures r.Some? ==> exists j :: i <= j < |PopularDomains| && r.value == PopularDomains[j].0 &&
                                    domain in PopularDomains[j].1 &&
                                    forall k :: i <= k < j ==> domain !in PopularDomains[k].1
    ensures r.None? <==> forall j :: i <= j < |PopularDomains| ==> domain !in PopularDomains[j].1
    decreases |PopularDomains| - i
  {
    if i == |PopularDomains| then None
    else if domain in PopularDomains[i].1 then Some(PopularDomains[i].0)
    else ExactTypoFrom(domain, i + 1)
  }

  function ExactTypoSuggestion(domain: string): Option<string> { ExactTypoFrom(domain, 0) }

  /** No correct spelling is listed as a misspelling of any row. */
  lemma CorrectNotListed(i: nat, j: nat)
    requires i < |PopularDomains| && j < |PopularDomains|
    ensures PopularDomains[i].0 !in PopularDomains[j].1
  {
  }

  /** With exact matching, a correctly spelt popular domain gets no suggestion. */
  lemma ExactAcceptsCorrectDomain(i: nat)
    requires i < |PopularDomains|
    ensures ExactTypoSuggestion(PopularDomains[i].0).None?
  {
    forall j | 0 <= j < |PopularDomains| ensures PopularDomains[i].0 !in PopularDomains[j].1 {
      CorrectNotListed(i, j);
    }
  }

  /** With exact matching, every listed misspelling still gets a suggestion. */
  lemma ExactFlagsListed(domain: string, j: nat)
    requires j < |PopularDomains| && domain in PopularDomains[j].1
    ensures ExactTypoSuggestion(domain).Some?
  {
  }

  // ---------------------------------------------------------------------
  // The chain

  /** `validateMXRecord`: a failed lookup passes; a lookup without answers does not. */
  function MxRecord(lookup: Option<bool>): (r: (bool, Option<string>))
    ensures r.0 <==> lookup != Some(false)
    ensures lookup == Some(false) ==> r == (false, Some(NoServersError))
    ensures lookup != Some(false) ==> r == (true, None)
  {
    match lookup
    case None => (true, None)
    case Some(hasAnswers) => if hasAnswers then (true, None) else (false, Some(NoServersError))
  }

  /**
   * `validateEmailAdvanced` on an address that passed the format test, with
   * `suggestion` the outcome of the misspelling loop.
   */
  function AdvancedWith(email: string, suggestion: Option<string>, lookup: Option<bool>): (r: Verdict)
    requires FormatOk(email)
    ensures r.isValid == r.isDeliverable
    ensures ContainsAny(Domain(email), DisposableDomains) ==> r == Reject(DisposableError)
    ensures !ContainsAny(Domain(email), DisposableDomains) && suggestion.Some? ==>
              r == Reject("Did you mean " + ReplaceFirst(email, Domain(email), suggestion.value) + "?")
    ensures r.isValid <==>
              !ContainsAny(Domain(email), DisposableDomains) && suggestion.None? && lookup != Some(false)
    ensures !ContainsAny(Domain(email), DisposableDomains) && suggestion.None? && lookup == Some(false) ==>
              r == Reject(NoServersError)
    ensures r.isValid ==> (r.error.Some? <==> LocalPart(email) in RolePrefixes)
    ensures r.isValid && LocalPart(email) in RolePrefixes ==> r.error == Some(RoleWarning)
  {
    var domain := Domain(email);
    if ContainsAny(domain, DisposableDomains) then Reject(DisposableError)
    else if suggestion.Some? then Reject("Did you mean " + ReplaceFirst(email, domain, suggestion.value) + "?")
    else
      var mx := MxRecord(lookup);
      if !mx.0 then Reject(match mx.1 case Some(e) => e case None => NoMailError)
      else if LocalPart(email) in RolePrefixes then Verdict(true, true, Some(RoleWarning))
      else Accept
  }

  /** `validateEmailAdvanced` as written. */
  function Advanced(email: string, lookup: Option<bool>): (r: Verdict)
    requires FormatOk(email)
    ensures r.isValid == r.isDeliverable
    ensures r.isValid <==> !ContainsAny(Domain(email), DisposableDomains) &&
                           (forall j :: 0 <= j < |PopularDomains| ==> !ContainsAny(Domain(email), PopularDomains[j].1)) &&
                           lookup != Some(false)
  {
    AdvancedWith(email, TypoSuggestion(Domain(email)), lookup)
  }

  /** `validateEmailAdvanced` with the misspelling rule corrected to an exact match. */
  function AdvancedCorrected(email: string, lookup: Option<bool>): (r: Verdict)
    requires FormatOk(email)
    ensures r.isValid == r.isDeliverable
    ensures r.isValid <==> !ContainsAny(Domain(email), DisposableDomains) &&
                           (forall j :: 0 <= j < |PopularDomains| ==> Domain(email) !in PopularDomains[j].1) &&
                           lookup != Some(false)
  {
    AdvancedWith(email, ExactTypoSuggestion(Domain(email)), lookup)
  }

  /**
   * `validateEmail`: the format test, the blocked list, then the advanced
   * check, where `crashed` says the advanced check threw and the address is
   * let through.  The advanced check is the corrected one.
   */
  function ValidateEmail(email: string, lookup: Option<bool>, crashed: bool): (r: Verdict)
    ensures r.isValid == r.isDeliverable
    ensures !MatchesRegex(email) ==> r == Reject(FormatError)
    ensures MatchesRegex(email) && FormatOk(email) && Domain(email) in BlockedDomains ==> r == Reject(BlockedError)
    ensures MatchesRegex(email) && FormatOk(email) && Domain(email) !in BlockedDomains ==>
              r == if crashed then Accept else AdvancedCorrected(email, lookup)
  {
    FormatOkIsRegex(email);
    if !FormatOk(email) then Reject(FormatError)
    else if Domain(email) in BlockedDomains then Reject(BlockedError)
    else if crashed then Accept
    else AdvancedCorrected(email, lookup)
  }

  /** `validateEmail` as written, with the substring rule for misspellings. */
  function ValidateEmailAsWritten(email: string, lookup: Option<bool>, crashed: bool): (r: Verdict)
    ensures r.isValid == r.isDeliverable
    ensures !MatchesRegex(email) ==> r == Reject(FormatError)
    ensures MatchesRegex(email) && FormatOk(email) && Domain(email) in BlockedDomains ==> r == Reject(BlockedError)
    ensures MatchesRegex(email) && FormatOk(email) && Domain(email) !in BlockedDomains ==>
              r == if crashed then Accept else Advanced(email, lookup)
  {
    FormatOkIsRegex(email);
    if !FormatOk(email) then Reject(FormatError)
    else if Domain(email) in BlockedDomains then Reject(BlockedError)
    else if crashed then Accept
    else Advanced(email, lookup)
  }

  // ---------------------------------------------------------------------
  // The address that shows the misspelling rule at work

  /** An address built from three pieces in lower case splits back into them. */
  lemma AddressParts(a: string, b: string, c: string)
    requires Piece(a) && Piece(b) && Piece(c)
    requires HasNoUpper(a) && HasNoUpper(b + "." + c)
    ensures var email := a + "@" + b + "." + c;
      FormatOk(email) && MatchesRegex(email) && Domain(email) == b + "." + c && LocalPart(email) == a
  {
    var email := a + "@" + b + "." + c;
    MatchesFormatOk(a, b, c);
    ToLowerOfLower(a);
    ToLowerOfLower(b + "." + c);
  }

  /** No disposable domain is as short as "gmail.com", so none occurs in it. */
  lemma GmailNotDisposable()
    ensures !ContainsAny("gmail.com", DisposableDomains)
  {
    forall k | 0 <= k < |DisposableDomains| ensures !Contains("gmail.com", DisposableDomains[k]) {
      AbsentByLength("gmail.com", DisposableDomains[k]);
    }
  }

  /**
   * A well-formed address whose domain is a correctly spelt popular domain
   * (in lower case, neither blocked nor disposable) is refused as written
   * for a misspelling, and passes the corrected chain unless the lookup
   * finds no mail servers.
   */
  lemma PopularDomainAddress(a: string, b: string, c: string, i: nat, lookup: Option<bool>)
    requires Piece(a) && Piece(b) && Piece(c) && HasNoUpper(a)
    requires i < |PopularDomains| && b + "." + c == PopularDomains[i].0
    requires HasNoUpper(b + "." + c) && b + "." + c !in BlockedDomains
    requires !ContainsAny(b + "." + c, DisposableDomains)
    ensures var r := ValidateEmailAsWritten(a + "@" + b + "." + c, lookup, false);
      !r.isValid && r.error.Some? && r.error.value[..13] == "Did you mean "
    ensures ValidateEmail(a + "@" + b + "." + c, lookup, false).isValid <==> lookup != Some(false)
  {
    AddressParts(a, b, c);
    TypoFlagsCorrectDomain(i);
    ExactAcceptsCorrectDomain(i);
  }

  /** "user@gmail.com" shows it: refused as written, accepted once corrected when the lookup does not fail. */
  lemma UserAtGmail(lookup: Option<bool>)
    ensures !ValidateEmailAsWritten("user@gmail.com", lookup, false).isValid
    ensures ValidateEmail("user@gmail.com", lookup, false).isValid <==> lookup != Some(false)
  {
    var a, b, c := "user", "gmail", "com";
    assert Piece(a) && Piece(b) && Piece(c) && HasNoUpper(a);
    assert a + "@" + b + "." + c == "user@gmail.com";
    assert b + "." + c == "gmail.com" == PopularDomains[0].0;
    assert HasNoUpper("gmail.com") && "gmail.com" !in BlockedDomains;
    GmailNotDisposable();
    PopularDomainAddress(a, b, c, 0, lookup);
  }
}
