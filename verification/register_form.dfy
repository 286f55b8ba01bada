/**
  `validateForm` of `src/components/auth/RegisterForm.tsx`: the checks run on
  the registration form before it is submitted, as a pure function from the
  four fields to the map of error messages. Storing the map in component state
  is not modelled.
*/
module RegisterForm {
  import opened Wrappers

  /**
    The characters JavaScript's `trim()` removes and `\s` matches: the
    ECMAScript WhiteSpace and LineTerminator code points.
  */
  predicate IsSpace(c: char) {
    || ('\U{0009}' <= c <= '\U{000D}') || c == ' ' || c == '\U{00A0}' || c == '\U{1680}'
    || ('\U{2000}' <= c <= '\U{200A}')
    || c == '\U{2028}' || c == '\U{2029}' || c == '\U{202F}' || c == '\U{205F}' || c == '\U{3000}' || c == '\U{FEFF}'
  }

  /** Every character of `s[i..j]` is a non-space (`\S`). */
  predicate NoSpaceIn(s: string, i: int, j: int)
    requires 0 <= i <= j <= |s|
  {
    forall k :: i <= k < j ==> !IsSpace(s[k])
  }

  /** The number of leading spaces of `s`. */
  function LeadingSpaces(s: string): (n: nat)
    ensures n <= |s|
    ensures forall k :: 0 <= k < n ==> IsSpace(s[k])
    ensures n < |s| ==> !IsSpace(s[n])
  {
    if |s| == 0 || !IsSpace(s[0]) then 0 else 1 + LeadingSpaces(s[1..])
  }

  /** The number of trailing spaces of `s`. */
  function TrailingSpaces(s: string): (n: nat)
    ensures n <= |s|
    ensures forall k :: |s| - n <= k < |s| ==> IsSpace(s[k])
    ensures n < |s| ==> !IsSpace(s[|s| - n - 1])
  {
    if |s| == 0 || !IsSpace(s[|s| - 1]) then 0 else 1 + TrailingSpaces(s[..|s| - 1])
  }

  /** `s.trim()`: `s` without its leading and trailing spaces. */
  function Trim(s: string): (r: string)
    ensures |r| <= |s|
    ensures |r| > 0 ==> !IsSpace(r[0]) && !IsSpace(r[|r| - 1])
  {
    var t := s[LeadingSpaces(s)..];
    t[..|t| - TrailingSpaces(t)]
  }

  /** `!s.trim()`: the trimmed string is empty exactly when `s` consists of spaces only. */
  lemma TrimEmptyIffAllSpace(s: string)
    ensures Trim(s) == "" <==> forall k :: 0 <= k < |s| ==> IsSpace(s[k])
  {
    var n := LeadingSpaces(s);
    var t := s[n..];
    if forall k :: 0 <= k < |s| ==> IsSpace(s[k]) {
      assert n == |s|;
      assert t == [];
    } else {
      var k :| 0 <= k < |s| && !IsSpace(s[k]);
      assert n <= k;
      assert |t| > 0 && !IsSpace(t[0]);
      assert TrailingSpaces(t) < |t|;
      assert |Trim(s)| > 0;
    }
  }

  /**
    `s[p..q]` is a match of the regular expression `/\S+@\S+\.\S+/`: non-spaces
    `s[p..a]`, `@` at `a`, non-spaces `s[a + 1..b]`, `.` at `b` and non-spaces
    `s[b + 1..q]`, each run non-empty.
  */
  predicate MatchAt(s: string, p: int, a: int, b: int, q: int) {
    && 0 <= p < a && a + 1 < b && b + 1 < q <= |s|
    && s[a] == '@' && s[b] == '.'
    && NoSpaceIn(s, p, a) && NoSpaceIn(s, a + 1, b) && NoSpaceIn(s, b + 1, q)
  }

  /** `RegExp.prototype.test`: the expression matches somewhere in `s`. */
  ghost predicate EmailPatternMatches(s: string) {
    exists p, a, b, q :: MatchAt(s, p, a, b, q)
  }

  /**
    The shortest match around an `@` at `a` and a `.` at `b`: one non-space
    before the `@`, only non-spaces up to the `.`, one non-space after it.
  */
  predicate ShapeAt(s: string, a: int, b: int) {
    && 1 <= a && a + 1 < b && b + 1 < |s|
    && s[a] == '@' && s[b] == '.'
    && !IsSpace(s[a - 1]) && NoSpaceIn(s, a + 1, b) && !IsSpace(s[b + 1])
  }

  /** Some `@` and `.` of `s` frame the shortest match. */
  predicate HasEmailShape(s: string) {
    exists a, b :: 0 <= a < b < |s| && ShapeAt(s, a, b)
  }

  /** The regular expression matches exactly when the shortest form occurs. */
  lemma EmailShapeIsPattern(s: string)
    ensures HasEmailShape(s) <==> EmailPatternMatches(s)
  {
    if HasEmailShape(s) {
      var a, b :| 0 <= a < b < |s| && ShapeAt(s, a, b);
      assert MatchAt(s, a - 1, a, b, b + 2);
    }
    if EmailPatternMatches(s) {
      var p, a, b, q :| MatchAt(s, p, a, b, q);
      assert ShapeAt(s, a, b);
    }
  }

  datatype Field = Username | Email | Password | ConfirmPassword

  datatype RegisterData = RegisterData(username: string, email: string, password: string, confirmPassword: string)

  const UsernameRequired := "Username is required"
  const UsernameTooShort := "Username must be at least 3 characters"
  const EmailRequired := "Email is required"
  const EmailInvalid := "Please enter a valid email"
  const PasswordRequired := "Password is required"
  const PasswordTooShort := "Password must be at least 6 characters"
  const PasswordsDiffer := "Passwords do not match"

  /** The username check: blank after trimming, then shorter than 3 characters (untrimmed). */
  function UsernameError(u: string): Option<string> {
    if Trim(u) == "" then Some(UsernameRequired)
    else if |u| < 3 then Some(UsernameTooShort)
    else None
  }

  /** The email check: blank after trimming, then no match of the address pattern. */
  function EmailError(e: string): Option<string> {
    if Trim(e) == "" then Some(EmailRequired)
    else if !HasEmailShape(e) then Some(EmailInvalid)
    else None
  }

  /** The password check: empty (not trimmed), then shorter than 6 characters. */
  function PasswordError(p: string): Option<string> {
    if p == "" then Some(PasswordRequired)
    else if |p| < 6 then Some(PasswordTooShort)
    else None
  }

  /** The confirmation check, made whatever the password check found. */
  function ConfirmError(p: string, c: string): Option<string> {
    if p != c then Some(PasswordsDiffer) else None
  }

  /** Add `field`'s message to `errors` when its check failed. */
  function Note(errors: map<Field, string>, field: Field, message: Option<string>): map<Field, string> {
    match message
    case None => errors
    case Some(m) => errors[field := m]
  }

  /** `validateForm()`: the error map and whether it is empty. */
  function ValidateForm(d: RegisterData): (r: (map<Field, string>, bool))
    ensures var errors := r.0;
      && (Username in errors <==> UsernameError(d.username).Some?)
      && (Username in errors ==> errors[Username] == UsernameError(d.username).value)
      && (Email in errors <==> EmailError(d.email).Some?)
      && (Email in errors ==> errors[Email] == EmailError(d.email).value)
      && (Password in errors <==> PasswordError(d.password).Some?)
      && (Password in errors ==> errors[Password] == PasswordError(d.password).value)
      && (ConfirmPassword in errors <==> d.password != d.confirmPassword)
      && (ConfirmPassword in errors ==> errors[ConfirmPassword] == PasswordsDiffer)
    ensures r.1 <==> r.0 == map[]
  {
    var errors :=
      Note(Note(Note(Note(map[], Username, UsernameError(d.username)),
                     Email, EmailError(d.email)),
                Password, PasswordError(d.password)),
           ConfirmPassword, ConfirmError(d.password, d.confirmPassword));
    (errors, errors == map[])
  }

  /**
    The form is accepted exactly when the username has a non-space and at
    least 3 characters, the email has the address shape, the password has at
    least 6 characters and the confirmation repeats it.
  */
  lemma AcceptedIff(d: RegisterData)
    ensures ValidateForm(d).1 <==>
      && (exists k :: 0 <= k < |d.username| && !IsSpace(d.username[k])) && |d.username| >= 3
      && EmailPatternMatches(d.email)
      && |d.password| >= 6
      && d.password == d.confirmPassword
  {
    TrimEmptyIffAllSpace(d.username);
    TrimEmptyIffAllSpace(d.email);
    EmailShapeIsPattern(d.email);
    var errors := ValidateForm(d).0;
    if ValidateForm(d).1 {
      assert Username !in errors && Email !in errors && Password !in errors && ConfirmPassword !in errors;
      var a, b :| 0 <= a < b < |d.email| && ShapeAt(d.email, a, b);
      assert !IsSpace(d.email[a]);
    } else {
      assert Username in errors || Email in errors || Password in errors || ConfirmPassword in errors;
    }
  }

  /** A complete, consistent form is accepted. */
  lemma ExampleAccepted()
    ensures ValidateForm(RegisterData("ann", "ann@mail.org", "secret", "secret")).1
  {
    ExampleUsernameFine();
    ExampleEmailFine();
  }

  lemma ExampleUsernameFine()
    ensures UsernameError("ann").None?
  {
    TrimEmptyIffAllSpace("ann");
    assert !IsSpace("ann"[0]);
  }

  lemma ExampleEmailFine()
    ensures EmailError("ann@mail.org").None?
  {
    TrimEmptyIffAllSpace("ann@mail.org");
    assert !IsSpace("ann@mail.org"[0]);
    assert NoSpaceIn("ann@mail.org", 4, 8);
    assert ShapeAt("ann@mail.org", 3, 8);
  }

  /** A username of spaces is missing, not short. */
  lemma ExampleBlankUsername()
    ensures ValidateForm(RegisterData("  ", "a@b.c", "secret", "secret")).0[Username] == UsernameRequired
  {
    TrimEmptyIffAllSpace("  ");
  }

  /** The length check counts the spaces the blank check ignores. */
  lemma ExampleShortUsername()
    ensures ValidateForm(RegisterData(" a", "a@b.c", "secret", "secret")).0[Username] == UsernameTooShort
  {
    TrimEmptyIffAllSpace(" a");
    assert !IsSpace(" a"[1]);
  }

  /** A dot with nothing after it does not make an address. */
  lemma ExampleNoTopLevel()
    ensures ValidateForm(RegisterData("ann", "a@b.", "secret", "secret")).0[Email] == EmailInvalid
  {
    TrimEmptyIffAllSpace("a@b.");
    assert !IsSpace("a@b."[0]);
  }

  /** Only the confirmation is reported when it alone is wrong. */
  lemma ExampleMismatch()
    ensures ValidateForm(RegisterData("ann", "ann@mail.org", "secret", "secreT")).0 == map[ConfirmPassword := PasswordsDiffer]
  {
    ExampleUsernameFine();
    ExampleEmailFine();
    assert "secret"[5] != "secreT"[5];
  }
}
