/** The registration form validator of the web application (validate_registration
    in app.py). It checks three already-normalised fields and reports at most one
    error per field, username first, then email, then password. */
module Registration {
  import opened Wrappers

  /** The five messages validate_registration can report. */
  datatype Error =
    | UsernameNotCapitalised
    | UsernameNotAlphanumeric
    | EmailNotGmail
    | PasswordTooShort
    | PasswordNoSpecial

  datatype Field = Username | Email | Password

  /** The text the application flashes for each error. */
  function Message(e: Error): string
  {
    match e
    case UsernameNotCapitalised => "Username must start with a capital letter"
    case UsernameNotAlphanumeric => "Username can only contain letters and numbers"
    case EmailNotGmail => "Please use a valid Gmail address"
    case PasswordTooShort => "Password must be at least 8 characters"
    case PasswordNoSpecial => "Password must contain at least one special character (!@#$%^&*)"
  }

  function FieldOf(e: Error): Field
  {
    match e
    case UsernameNotCapitalised | UsernameNotAlphanumeric => Username
    case EmailNotGmail => Email
    case PasswordTooShort | PasswordNoSpecial => Password
  }

  /** Position of a field in the order the checks run. */
  function Rank(f: Field): nat
  {
    match f
    case Username => 0
    case Email => 1
    case Password => 2
  }

  const GmailSuffix: string := "@gmail.com"
  const MinPasswordLength: nat := 8
  const SpecialChars: string := "!@#$%^&*"

  /** str.isupper on one character, restricted to ASCII. */
  predicate IsUpper(c: char)
  {
    'A' <= c <= 'Z'
  }

  /** The regular-expression class [a-zA-Z0-9]. */
  predicate IsAlnum(c: char)
  {
    'a' <= c <= 'z' || 'A' <= c <= 'Z' || '0' <= c <= '9'
  }

  /** The regular-expression class [!@#$%^&*]. */
  predicate IsSpecial(c: char)
  {
    c in SpecialChars
  }

  /** ASCII whitespace, the characters str.strip removes from the ends. */
  predicate IsSpace(c: char)
  {
    c == ' ' || c == '\t' || c == '\n' || c == '\r' || c == '\U{000B}' || c == '\U{000C}'
  }

  /** A string str.strip leaves unchanged: no whitespace at either end. */
  predicate Stripped(s: string)
  {
    s == [] || (!IsSpace(s[0]) && !IsSpace(s[|s| - 1]))
  }

  predicate EndsWith(s: string, suffix: string)
  {
    |suffix| <= |s| && s[|s| - |suffix|..] == suffix
  }

  /** re.search(r'[!@#$%^&*]', s) finds a match. */
  predicate ContainsSpecial(s: string)
  {
    exists i :: 0 <= i < |s| && IsSpecial(s[i])
  }

  /** The username shape the application asks for: an upper-case letter followed
      by letters and digits only. */
  predicate WellFormedUsername(u: string)
  {
    |u| > 0 && IsUpper(u[0]) && forall i :: 1 <= i < |u| ==> IsAlnum(u[i])
  }

  /** Where the greedy `[a-zA-Z0-9]*` starting at i stops. */
  function AlnumRunEnd(s: string, i: nat): (j: nat)
    requires i <= |s|
    ensures i <= j <= |s|
    ensures forall k :: i <= k < j ==> IsAlnum(s[k])
    ensures j < |s| ==> !IsAlnum(s[j])
    decreases |s| - i
  {
    if i < |s| && IsAlnum(s[i]) then AlnumRunEnd(s, i + 1) else i
  }

  /** Python's `$` without MULTILINE: it matches at the end of the string and
      also just before a newline that ends the string. */
  predicate DollarMatchesAt(s: string, j: nat)
  {
    j == |s| || (j + 1 == |s| && s[j] == '\n')
  }

  /** re.match(r'^[A-Z][a-zA-Z0-9]*$', s) succeeds. Backtracking the star
      cannot help: every shorter run ends before a letter or digit, where `$`
      does not match. */
  predicate MatchesUsernamePattern(s: string)
  {
    |s| > 0 && IsUpper(s[0]) && DollarMatchesAt(s, AlnumRunEnd(s, 1))
  }

  function UsernameError(u: string): Option<Error>
  {
    if |u| == 0 || !IsUpper(u[0]) then Some(UsernameNotCapitalised)
    else if !MatchesUsernamePattern(u) then Some(UsernameNotAlphanumeric)
    else None
  }

  function EmailError(e: string): Option<Error>
  {
    if |e| == 0 || !EndsWith(e, GmailSuffix) then Some(EmailNotGmail) else None
  }

  function PasswordError(p: string): Option<Error>
  {
    if |p| < MinPasswordLength then Some(PasswordTooShort)
    else if !ContainsSpecial(p) then Some(PasswordNoSpecial)
    else None
  }

  function Listed(o: Option<Error>): seq<Error>
  {
    if o.Some? then [o.value] else []
  }

  /** validate_registration: the list of errors, in the order they are appended.
      The caller has already stripped the fields and lower-cased the email. */
  function ValidateRegistration(username: string, email: string, password: string): (errors: seq<Error>)
    ensures |errors| <= 3
    ensures forall i, j :: 0 <= i < j < |errors| ==> Rank(FieldOf(errors[i])) < Rank(FieldOf(errors[j]))
    ensures errors == [] <==>
      MatchesUsernamePattern(username) && EndsWith(email, GmailSuffix) &&
      |password| >= MinPasswordLength && ContainsSpecial(password)
  {
    Listed(UsernameError(username)) + Listed(EmailError(email)) + Listed(PasswordError(password))
  }

  /** The regular expression accepts exactly the well-formed usernames, and
      those followed by one final newline. */
  lemma UsernamePatternMeaning(s: string)
    ensures MatchesUsernamePattern(s) <==>
      WellFormedUsername(s) ||
      (|s| >= 2 && s[|s| - 1] == '\n' && WellFormedUsername(s[..|s| - 1]))
  {
    if |s| > 0 && IsUpper(s[0]) {
      var j := AlnumRunEnd(s, 1);
      var t := s[..|s| - 1];
      assert forall i :: 0 <= i < |t| ==> t[i] == s[i];
      if WellFormedUsername(s) {
        assert j == |s|;
      }
      if |s| >= 2 && s[|s| - 1] == '\n' && WellFormedUsername(t) {
        assert !IsAlnum(s[|s| - 1]);
        assert j == |s| - 1;
      }
    }
  }

  /** On input the caller has stripped, the pattern means just the
      well-formed usernames. */
  lemma StrippedUsernamePattern(s: string)
    requires Stripped(s)
    ensures MatchesUsernamePattern(s) <==> WellFormedUsername(s)
  {
    UsernamePatternMeaning(s);
  }

  /** The capital-letter error is reported exactly for an empty username or one
      whose first character is not upper-case; the letters-and-numbers error
      exactly when the first character is upper-case and the pattern fails. */
  lemma UsernameErrors(username: string, email: string, password: string)
    ensures var errors := ValidateRegistration(username, email, password);
      (UsernameNotCapitalised in errors <==> |username| == 0 || !IsUpper(username[0])) &&
      (UsernameNotAlphanumeric in errors <==>
         |username| > 0 && IsUpper(username[0]) && !MatchesUsernamePattern(username)) &&
      !(UsernameNotCapitalised in errors && UsernameNotAlphanumeric in errors)
  {
  }

  /** The email error is reported exactly when the email does not end in
      "@gmail.com"; the separate test for an empty email adds nothing. */
  lemma EmailErrors(username: string, email: string, password: string)
    ensures var errors := ValidateRegistration(username, email, password);
      EmailNotGmail in errors <==> !EndsWith(email, GmailSuffix)
  {
  }

  /** A short password yields only the length error; the special-character error
      is reported exactly for a long enough password without one of !@#$%^&*. */
  lemma PasswordErrors(username: string, email: string, password: string)
    ensures var errors := ValidateRegistration(username, email, password);
      (PasswordTooShort in errors <==> |password| < MinPasswordLength) &&
      (PasswordNoSpecial in errors <==>
         |password| >= MinPasswordLength && !ContainsSpecial(password))
  {
  }

  /** With the fields the caller passes (stripped), registration is accepted
      exactly for a well-formed username, a Gmail address and a long password
      holding a special character. */
  lemma AcceptedRegistration(username: string, email: string, password: string)
    requires Stripped(username)
    ensures ValidateRegistration(username, email, password) == [] <==>
      WellFormedUsername(username) && EndsWith(email, GmailSuffix) &&
      |password| >= MinPasswordLength && ContainsSpecial(password)
  {
    StrippedUsernamePattern(username);
  }

  /** Distinct errors have distinct messages, so the list of flashed strings
      determines the list of errors. */
  lemma MessagesDistinct(a: Error, b: Error)
    ensures Message(a) == Message(b) <==> a == b
  {
  }
}
