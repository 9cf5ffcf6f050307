/**
 * The hand-written checks of the signup schema (components/signup-form.tsx,
 * lines 16-54): password length and character classes, the Omani phone pattern,
 * the password confirmation and the fields each user type must fill in. The
 * library validators (`email()` and `url()`) are inputs: their verdicts.
 */
module SignupValidation {
  import opened ClockText

  datatype UserType = Business | Freelancer | Individual

  /** `z.enum(["business", "freelancer", "individual"])` (line 18). */
  function ParseUserType(s: string): (t: Option<UserType>)
    ensures t.Some? <==> s in {"business", "freelancer", "individual"}
  {
    if s == "business" then Some(Business)
    else if s == "freelancer" then Some(Freelancer)
    else if s == "individual" then Some(Individual)
    else None
  }

  datatype SignupForm = SignupForm(
    userType: string,
    email: string,
    password: string,
    confirmPassword: string,
    crNumber: Option<string>,
    companyName: Option<string>,
    industry: Option<string>,
    idCardNumber: Option<string>,
    skillset: Option<string>,
    portfolioLink: Option<string>,
    phoneNumber: string)

  /** The checks of the schema, one per issue it can report. */
  datatype Issue =
    | BadUserType | BadEmail | ShortPassword | MissingClasses
    | BadPortfolioUrl | BadPhone | PasswordMismatch | MissingRequired

  /** The field an issue is reported on; the two refinements of lines 37-54 report
      on `confirmPassword` and on the form as a whole. */
  function IssuePath(issue: Issue): string
  {
    match issue
    case BadUserType => "userType"
    case BadEmail => "email"
    case ShortPassword => "password"
    case MissingClasses => "password"
    case BadPortfolioUrl => "portfolioLink"
    case BadPhone => "phoneNumber"
    case PasswordMismatch => "confirmPassword"
    case MissingRequired => ""
  }

  /** The messages the schema sets (lines 19-53); None where the message is the
      library's own (the enum and the url). */
  function IssueMessage(issue: Issue): Option<string>
  {
    match issue
    case BadUserType => None
    case BadEmail => Some("Invalid email address")
    case ShortPassword => Some("Password must be at least 8 characters long")
    case MissingClasses => Some("Password must contain uppercase, lowercase, number, and special character")
    case BadPortfolioUrl => None
    case BadPhone => Some("Invalid Omani phone number")
    case PasswordMismatch => Some("Passwords don't match")
    case MissingRequired => Some("Please fill in all required fields")
  }

  // ---------------------------------------------------------------------------
  // Password (lines 20-25)
  // ---------------------------------------------------------------------------

  /** The four classes of the lookaheads in the pattern of line 23. */
  datatype CharClass = Lower | Upper | Digit | Special

  predicate InClass(c: char, cls: CharClass)
  {
    match cls
    case Lower => 'a' <= c <= 'z'
    case Upper => 'A' <= c <= 'Z'
    case Digit => '0' <= c <= '9'
    case Special => c in {'!', '@', '#', '$', '%', '^', '&', '*'}
  }

  /** The characters a regular-expression `.` does not match. */
  predicate IsLineTerminator(c: char)
  {
    c == '\n' || c == '\r' || c == '\U{2028}' || c == '\U{2029}'
  }

  /** The lookahead `(?=.*[cls])` at the start of the input: scan with `.*` until a
      character of the class, never past a line terminator. */
  function LookaheadFinds(s: string, cls: CharClass): bool
  {
    if s == [] then false
    else if InClass(s[0], cls) then true
    else if IsLineTerminator(s[0]) then false
    else LookaheadFinds(s[1..], cls)
  }

  /** Position i holds a character of the class, with no line terminator before it. */
  predicate FoundAt(s: string, i: int, cls: CharClass)
  {
    0 <= i < |s| && InClass(s[i], cls) && forall j :: 0 <= j < i ==> !IsLineTerminator(s[j])
  }

  lemma FoundAtShift(s: string, i: nat, cls: CharClass)
    requires s != [] && !IsLineTerminator(s[0])
    ensures FoundAt(s, i + 1, cls) <==> FoundAt(s[1..], i, cls)
  {
    if FoundAt(s[1..], i, cls) {
      forall j | 0 <= j < i + 1
        ensures !IsLineTerminator(s[j])
      {
        if j > 0 {
          assert s[j] == s[1..][j - 1];
        }
      }
    }
    if FoundAt(s, i + 1, cls) {
      forall j | 0 <= j < i
        ensures !IsLineTerminator(s[1..][j])
      {
        assert s[1..][j] == s[j + 1];
      }
    }
  }

  /** The lookahead succeeds exactly when a character of the class comes before the
      first line terminator. */
  lemma {:induction false} LookaheadFindsIff(s: string, cls: CharClass)
    ensures LookaheadFinds(s, cls) <==> exists i :: FoundAt(s, i, cls)
  {
    if s == [] {
      assert forall i :: !FoundAt(s, i, cls);
    } else if InClass(s[0], cls) {
      assert FoundAt(s, 0, cls);
    } else if IsLineTerminator(s[0]) {
      forall i | 0 <= i < |s|
        ensures !FoundAt(s, i, cls)
      {
        if i > 0 {
          assert IsLineTerminator(s[0]);
        }
      }
    } else {
      LookaheadFindsIff(s[1..], cls);
      if LookaheadFinds(s[1..], cls) {
        var k :| FoundAt(s[1..], k, cls);
        FoundAtShift(s, k, cls);
      } else {
        forall i | 0 <= i < |s|
          ensures !FoundAt(s, i, cls)
        {
          if i > 0 {
            FoundAtShift(s, i - 1, cls);
          }
        }
      }
    }
  }

  /** The pattern of line 23: all four lookaheads succeed. */
  predicate HasAllClasses(password: string)
  {
    LookaheadFinds(password, Lower) && LookaheadFinds(password, Upper)
    && LookaheadFinds(password, Digit) && LookaheadFinds(password, Special)
  }

  /** The issues the password field reports: the length check of line 22 and the
      pattern of line 23, each on its own. */
  function PasswordIssues(password: string): (issues: seq<Issue>)
    ensures issues == [] <==> |password| >= 8 && HasAllClasses(password)
    ensures ShortPassword in issues <==> |password| < 8
    ensures MissingClasses in issues <==> !HasAllClasses(password)
  {
    (if |password| < 8 then [ShortPassword] else [])
    + (if !HasAllClasses(password) then [MissingClasses] else [])
  }

  // ---------------------------------------------------------------------------
  // Phone number (lines 33-35)
  // ---------------------------------------------------------------------------

  predicate IsAsciiDigit(c: char)
  {
    '0' <= c <= '9'
  }

  /** `\d{n}$`: exactly n digits and then the end of the input. */
  function DigitsToEnd(s: string, n: nat): bool
  {
    if n == 0 then s == []
    else s != [] && IsAsciiDigit(s[0]) && DigitsToEnd(s[1..], n - 1)
  }

  lemma {:induction false} DigitsToEndIff(s: string, n: nat)
    ensures DigitsToEnd(s, n) <==> |s| == n && forall i :: 0 <= i < |s| ==> IsAsciiDigit(s[i])
  {
    if n > 0 && s != [] {
      DigitsToEndIff(s[1..], n - 1);
      if IsAsciiDigit(s[0]) && DigitsToEnd(s[1..], n - 1) {
        forall i | 0 <= i < |s|
          ensures IsAsciiDigit(s[i])
        {
          if i > 0 {
            assert s[i] == s[1..][i - 1];
          }
        }
      }
    }
  }

  /** `^(?:\+968)?\d{8}$`: the optional prefix is tried first, then left out. */
  predicate PhoneMatches(phone: string)
  {
    (|phone| >= 4 && phone[..4] == "+968" && DigitsToEnd(phone[4..], 8))
    || DigitsToEnd(phone, 8)
  }

  /** A phone number is accepted exactly when it is eight ASCII digits, with or
      without "+968" in front. */
  lemma PhoneMatchesIff(phone: string)
    ensures PhoneMatches(phone) <==>
      (|phone| == 8 && forall i :: 0 <= i < 8 ==> IsAsciiDigit(phone[i]))
      || (|phone| == 12 && phone[..4] == "+968" && forall i :: 4 <= i < 12 ==> IsAsciiDigit(phone[i]))
  {
    DigitsToEndIff(phone, 8);
    if |phone| >= 4 {
      DigitsToEndIff(phone[4..], 8);
      if |phone| == 12 {
        assert forall i :: 4 <= i < 12 ==> phone[i] == phone[4..][i - 4];
      }
    }
  }

  // ---------------------------------------------------------------------------
  // The object refinements (lines 37-54)
  // ---------------------------------------------------------------------------

  /** `!!value`: present and non-empty. */
  predicate Filled(value: Option<string>)
  {
    value.Some? && value.value != ""
  }

  /** Lines 41-50: the fields each user type must fill in. */
  predicate RequiredFieldsPresent(form: SignupForm)
  {
    if form.userType == "business" then
      Filled(form.crNumber) && Filled(form.companyName) && Filled(form.industry)
    else if form.userType == "freelancer" then
      Filled(form.idCardNumber) && Filled(form.skillset) && Filled(form.portfolioLink)
    else true
  }

  /** Whether a check fails on the form. `emailOk` and `urlOk` are the verdicts of
      the library's email and url validators. */
  predicate Fails(issue: Issue, form: SignupForm, emailOk: bool, urlOk: bool)
  {
    match issue
    case BadUserType => ParseUserType(form.userType).None?
    case BadEmail => !emailOk
    case ShortPassword => ShortPassword in PasswordIssues(form.password)
    case MissingClasses => MissingClasses in PasswordIssues(form.password)
    case BadPortfolioUrl => form.portfolioLink.Some? && !urlOk
    case BadPhone => !PhoneMatches(form.phoneNumber)
    case PasswordMismatch => form.password != form.confirmPassword
    case MissingRequired => !RequiredFieldsPresent(form)
  }

  /** Whether a failing check is reported. A userType outside the enum aborts the
      object's parse, and the refinements of lines 37-54 do not run on an aborted
      parse; the string checks only mark it dirty, and the refinements still run. */
  predicate Reported(issue: Issue, form: SignupForm, emailOk: bool, urlOk: bool)
  {
    Fails(issue, form, emailOk, urlOk)
    && ((issue == PasswordMismatch || issue == MissingRequired) ==> ParseUserType(form.userType).Some?)
  }

  /** The checks in the order the schema runs them: the fields, then the two
      refinements. */
  const Checks: seq<Issue> := [BadUserType, BadEmail, ShortPassword, MissingClasses,
                               BadPortfolioUrl, BadPhone, PasswordMismatch, MissingRequired]

  function FailingOf(checks: seq<Issue>, form: SignupForm, emailOk: bool, urlOk: bool): (r: seq<Issue>)
    ensures forall issue :: issue in r <==> issue in checks && Reported(issue, form, emailOk, urlOk)
  {
    if checks == [] then []
    else (if Reported(checks[0], form, emailOk, urlOk) then [checks[0]] else [])
         + FailingOf(checks[1..], form, emailOk, urlOk)
  }

  /** All issues the schema reports for the form, in order. */
  function SignupIssues(form: SignupForm, emailOk: bool, urlOk: bool): (issues: seq<Issue>)
    ensures forall issue :: issue in issues <==> Reported(issue, form, emailOk, urlOk)
  {
    FailingOf(Checks, form, emailOk, urlOk)
  }

  predicate Valid(form: SignupForm, emailOk: bool, urlOk: bool)
  {
    SignupIssues(form, emailOk, urlOk) == []
  }

  /** A form is valid exactly when every check passes. */
  lemma ValidIff(form: SignupForm, emailOk: bool, urlOk: bool)
    ensures Valid(form, emailOk, urlOk) <==>
      ParseUserType(form.userType).Some? && emailOk
      && |form.password| >= 8 && HasAllClasses(form.password)
      && (form.portfolioLink.Some? ==> urlOk)
      && PhoneMatches(form.phoneNumber)
      && form.password == form.confirmPassword
      && RequiredFieldsPresent(form)
  {
    var issues := SignupIssues(form, emailOk, urlOk);
    if issues != [] {
      assert issues[0] in issues;
    }
    assert !Reported(BadUserType, form, emailOk, urlOk) && !Reported(BadEmail, form, emailOk, urlOk)
      && !Reported(ShortPassword, form, emailOk, urlOk) && !Reported(MissingClasses, form, emailOk, urlOk)
      && !Reported(BadPortfolioUrl, form, emailOk, urlOk) && !Reported(BadPhone, form, emailOk, urlOk)
      && !Reported(PasswordMismatch, form, emailOk, urlOk) && !Reported(MissingRequired, form, emailOk, urlOk)
      <==> issues == [];
  }

  /** With a valid user type, differing passwords are reported on
      `confirmPassword` with their message. */
  lemma MismatchReportedOnConfirm(form: SignupForm, emailOk: bool, urlOk: bool)
    requires ParseUserType(form.userType).Some? && form.password != form.confirmPassword
    ensures PasswordMismatch in SignupIssues(form, emailOk, urlOk)
    ensures IssuePath(PasswordMismatch) == "confirmPassword"
    ensures IssueMessage(PasswordMismatch) == Some("Passwords don't match")
  {
  }

  /** With a user type outside the enum, neither refinement is reported, whatever
      the passwords and fields. */
  lemma BadUserTypeHidesRefinements(form: SignupForm, emailOk: bool, urlOk: bool)
    requires ParseUserType(form.userType).None?
    ensures BadUserType in SignupIssues(form, emailOk, urlOk)
    ensures PasswordMismatch !in SignupIssues(form, emailOk, urlOk)
    ensures MissingRequired !in SignupIssues(form, emailOk, urlOk)
  {
  }

  /** An individual has no required fields beyond the common ones. */
  lemma IndividualNeedsNothingMore(form: SignupForm)
    requires form.userType == "individual"
    ensures RequiredFieldsPresent(form)
  {
  }

  /** The number of the sign-up scenario, and the same digits without the prefix. */
  lemma PhoneAccepted(p: string)
    requires p == "+96812345678" || p == "12345678"
    ensures PhoneMatches(p)
  {
    PhoneMatchesIff(p);
    if |p| == 12 {
      assert p[..4] == "+968";
    }
  }

  /** Seven digits after the prefix, or a different country code, are refused. */
  lemma PhoneRefused(p: string)
    requires p == "+9681234567" || p == "+97112345678"
    ensures !PhoneMatches(p)
  {
    PhoneMatchesIff(p);
    if |p| == 12 {
      assert p[2] == '7';
      assert p[..4][2] == '7';
    }
  }

  /** "weak" gets the length message (and the character-class message too). */
  lemma WeakPasswordRejected()
    ensures ShortPassword in PasswordIssues("weak")
    ensures MissingClasses in PasswordIssues("weak")
  {
    assert !LookaheadFinds("weak", Upper) by {
      LookaheadFindsIff("weak", Upper);
    }
  }

  /** The password of the sign-up scenario passes both checks. */
  lemma StrongPasswordAccepted(p: string)
    requires p == "StrongPassword123!"
    ensures PasswordIssues(p) == []
  {
    assert forall j :: 0 <= j < 17 ==> !IsLineTerminator(p[j]);
    assert FoundAt(p, 0, Upper) && FoundAt(p, 1, Lower) && FoundAt(p, 14, Digit) && FoundAt(p, 17, Special);
    LookaheadFindsIff(p, Lower);
    LookaheadFindsIff(p, Upper);
    LookaheadFindsIff(p, Digit);
    LookaheadFindsIff(p, Special);
  }

  /** A character class found only after a line break does not count. */
  lemma ClassAfterLineBreakMissed()
    ensures !LookaheadFinds("abc\nD", Upper)
  {
  }

  /** A business form like the one of the sign-up scenario (company details given,
      the strong password twice, an Omani number) is valid once the library accepts
      its email. */
  lemma SignupScenarioValid(form: SignupForm)
    requires form.userType == "business"
    requires form.password == "StrongPassword123!" && form.confirmPassword == form.password
    requires form.crNumber == Some("12345") && form.companyName == Some("Test Company")
    requires form.industry == Some("Technology") && form.portfolioLink == None
    requires form.phoneNumber == "+96812345678"
    ensures Valid(form, true, true)
  {
    StrongPasswordAccepted(form.password);
    PhoneAccepted(form.phoneNumber);
    assert ParseUserType(form.userType) == Some(Business);
    assert RequiredFieldsPresent(form);
    ValidIff(form, true, true);
  }

  /** The invalid-input scenario: a business form whose email the library refuses
      and whose password is "weak" (twice) is reported with the email message and
      the length message. */
  lemma InvalidInputReported(form: SignupForm)
    requires form.userType == "business"
    requires form.password == "weak" && form.confirmPassword == "weak"
    ensures BadEmail in SignupIssues(form, false, true)
    ensures ShortPassword in SignupIssues(form, false, true)
    ensures IssueMessage(BadEmail) == Some("Invalid email address")
    ensures IssueMessage(ShortPassword) == Some("Password must be at least 8 characters long")
    ensures !Valid(form, false, true)
  {
    WeakPasswordRejected();
    assert Reported(ShortPassword, form, false, true);
    assert Reported(BadEmail, form, false, true);
  }
}
