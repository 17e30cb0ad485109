/**
 * The two zod schemas that check submitted forms: `signUpValidation`
 * (email, password, confirmPass, and the rule that the two passwords agree)
 * and `logInValidation` (email, password).
 *
 * A form is the body of the request as a map from field name to text. A
 * field that is absent fails with an `invalid_type` issue. The email format
 * check belongs to zod and is not visible here, so it is a parameter.
 */
module Validation {
  import opened Wrappers
  import opened JsString

  /** The parsed body of a form submission. */
  type Form = map<string, string>

  /** zod's email format check, taken as given. */
  type EmailFormat = string -> bool

  /** The kinds of issue the schemas can report (their messages are not modelled). */
  datatype IssueCode =
    | InvalidType      // the field is missing
    | InvalidEmail     // `.email(...)` failed
    | TooSmall         // `.min(5)` failed
    | InvalidString    // `.regex(...)` failed
    | Custom           // the `.refine(...)` on the whole object failed

  /** One field-level issue; `path` is the single path segment zod reports. */
  datatype Issue = Issue(path: string, code: IssueCode)

  /** The payload of a successful signup parse. */
  datatype SignUpData = SignUpData(email: string, password: string, confirmPass: string)

  /** The payload of a successful login parse. */
  datatype LogInData = LogInData(email: string, password: string)

  /** The argument of `.min(...)` on both password fields. */
  const MinPasswordLength: nat := 5

  /** The path the signup refinement attaches its issue to. */
  const ConfirmPath := "confirm_pass"

  // ---------------------------------------------------------------------
  // The pattern ^(?=.*[A-Z])(?=.*\d).+$ with no flags, as RegExp.test runs it.
  // Without the `m` flag `^` matches only at position 0 and `$` only at the
  // end, and without the `s` flag `.` matches anything but a line terminator.
  // ---------------------------------------------------------------------

  /** The classes the two lookaheads search for. */
  datatype CharClass = Upper | Digit

  predicate InClass(c: char, cls: CharClass) {
    match cls
    case Upper => IsAsciiUpper(c)
    case Digit => IsAsciiDigit(c)
  }

  /** `s` matches `.*`: no character of it is a line terminator. */
  predicate DotStar(s: string) {
    forall i :: 0 <= i < |s| ==> !IsLineTerminator(s[i])
  }

  /** The lookahead `(?=.*C)` at position 0 of `s`. */
  predicate LookaheadAtStart(s: string, cls: CharClass) {
    exists k :: 0 <= k < |s| && DotStar(s[..k]) && InClass(s[k], cls)
  }

  /** The whole pattern, anchored at position 0 and at the end of `s`. */
  predicate PasswordPattern(s: string) {
    && LookaheadAtStart(s, Upper)
    && LookaheadAtStart(s, Digit)
    && 1 <= |s| && DotStar(s)      // `.+$`
  }

  // ---------------------------------------------------------------------
  // An independent statement of the password rule.
  // ---------------------------------------------------------------------

  predicate HasUpper(s: string) { exists i :: 0 <= i < |s| && IsAsciiUpper(s[i]) }
  predicate HasDigit(s: string) { exists i :: 0 <= i < |s| && IsAsciiDigit(s[i]) }
  predicate HasLineTerminator(s: string) { exists i :: 0 <= i < |s| && IsLineTerminator(s[i]) }

  /**
   * What both password fields demand: at least five UTF-16 code units, an
   * ASCII capital, an ASCII digit, and no line terminator. Neither a
   * lower-case letter nor more than five characters is required.
   */
  predicate StrongPassword(s: string) {
    && Utf16Length(s) >= MinPasswordLength
    && HasUpper(s)
    && HasDigit(s)
    && !HasLineTerminator(s)
  }

  /** The lookahead succeeds on a line-free string iff the class occurs in it. */
  lemma LookaheadOnLineFree(s: string, cls: CharClass)
    requires DotStar(s)
    ensures LookaheadAtStart(s, cls) <==> exists i :: 0 <= i < |s| && InClass(s[i], cls)
  {
    if i :| 0 <= i < |s| && InClass(s[i], cls) {
      assert DotStar(s[..i]);
    }
  }

  /** The regular expression accepts exactly the line-free strings with a capital and a digit. */
  lemma PasswordPatternIff(s: string)
    ensures PasswordPattern(s) <==> HasUpper(s) && HasDigit(s) && !HasLineTerminator(s)
  {
    if DotStar(s) {
      LookaheadOnLineFree(s, Upper);
      LookaheadOnLineFree(s, Digit);
      assert HasUpper(s) <==> exists i :: 0 <= i < |s| && InClass(s[i], Upper);
      assert HasDigit(s) <==> exists i :: 0 <= i < |s| && InClass(s[i], Digit);
    }
  }

  // ---------------------------------------------------------------------
  // Field checks and the two schemas.
  // ---------------------------------------------------------------------

  /** `z.string().min(5).regex(...)`: both checks run and each may add an issue. */
  function PasswordIssues(path: string, s: string): (issues: seq<Issue>)
    ensures issues == [] <==> StrongPassword(s)
    ensures forall i :: 0 <= i < |issues| ==> issues[i].path == path
  {
    PasswordPatternIff(s);
    (if Utf16Length(s) < MinPasswordLength then [Issue(path, TooSmall)] else [])
    + (if PasswordPattern(s) then [] else [Issue(path, InvalidString)])
  }

  /** `z.string().email(...)`. */
  function EmailIssues(path: string, s: string, isEmail: EmailFormat): (issues: seq<Issue>)
    ensures issues == [] <==> isEmail(s)
    ensures forall i :: 0 <= i < |issues| ==> issues[i].path == path
  {
    if isEmail(s) then [] else [Issue(path, InvalidEmail)]
  }

  /** Which string schema a field carries. */
  datatype FieldSchema = EmailField | PasswordField

  /** A field's own rule holds of the text `s`. */
  predicate FieldAccepts(schema: FieldSchema, s: string, isEmail: EmailFormat) {
    match schema
    case EmailField => isEmail(s)
    case PasswordField => StrongPassword(s)
  }

  /** The issues one field of an object schema adds; a missing field is `invalid_type`. */
  function FieldIssues(form: Form, key: string, schema: FieldSchema, isEmail: EmailFormat): (issues: seq<Issue>)
    ensures issues == [] <==> key in form && FieldAccepts(schema, form[key], isEmail)
    ensures key !in form ==> issues == [Issue(key, InvalidType)]
    ensures forall i :: 0 <= i < |issues| ==> issues[i].path == key
  {
    if key !in form then [Issue(key, InvalidType)]
    else match schema
      case EmailField => EmailIssues(key, form[key], isEmail)
      case PasswordField => PasswordIssues(key, form[key])
  }

  /**
   * `signUpValidation.safeParse(form)`. Every field is checked and its issues
   * collected in field order. A missing field aborts the object, and then the
   * refinement does not run; otherwise it runs even when other checks failed,
   * and a mismatch adds an issue on `confirm_pass`.
   */
  function SignUpValidation(form: Form, isEmail: EmailFormat): (r: Result<SignUpData, seq<Issue>>)
    ensures r.Success? <==>
      && "email" in form && "password" in form && "confirmPass" in form
      && isEmail(form["email"])
      && StrongPassword(form["password"])
      && StrongPassword(form["confirmPass"])
      && form["password"] == form["confirmPass"]
    ensures r.Success? ==> r.value == SignUpData(form["email"], form["password"], form["confirmPass"])
    ensures r.Failure? ==> r.error != []
    // no field is missing, so the refinement runs, and the passwords differ
    ensures
      && "email" in form && "password" in form && "confirmPass" in form
      && form["password"] != form["confirmPass"]
      ==> r.Failure? && Issue(ConfirmPath, Custom) in r.error
    // each field passes on its own, yet the passwords differ
    ensures
      && "email" in form && "password" in form && "confirmPass" in form
      && isEmail(form["email"])
      && StrongPassword(form["password"])
      && StrongPassword(form["confirmPass"])
      && form["password"] != form["confirmPass"]
      ==> r == Failure([Issue(ConfirmPath, Custom)])
  {
    var emailIssues := FieldIssues(form, "email", EmailField, isEmail);
    var passwordIssues := FieldIssues(form, "password", PasswordField, isEmail);
    var confirmIssues := FieldIssues(form, "confirmPass", PasswordField, isEmail);
    var fieldIssues := emailIssues + passwordIssues + confirmIssues;
    assert fieldIssues == [] <==> emailIssues == [] && passwordIssues == [] && confirmIssues == [];
    var aborted := "email" !in form || "password" !in form || "confirmPass" !in form;
    var refineIssues :=
      if !aborted && form["password"] != form["confirmPass"] then [Issue(ConfirmPath, Custom)] else [];
    var issues := fieldIssues + refineIssues;
    assert fieldIssues == [] ==> issues == refineIssues;
    if issues == [] then Success(SignUpData(form["email"], form["password"], form["confirmPass"]))
    else Failure(issues)
  }

  /** `logInValidation.safeParse(form)`. */
  function LogInValidation(form: Form, isEmail: EmailFormat): (r: Result<LogInData, seq<Issue>>)
    ensures r.Success? <==>
      && "email" in form && "password" in form
      && isEmail(form["email"])
      && StrongPassword(form["password"])
    ensures r.Success? ==> r.value == LogInData(form["email"], form["password"])
    ensures r.Failure? ==> r.error != []
  {
    var issues :=
      FieldIssues(form, "email", EmailField, isEmail)
      + FieldIssues(form, "password", PasswordField, isEmail);
    if issues == [] then Success(LogInData(form["email"], form["password"]))
    else Failure(issues)
  }

  /** A form the signup schema accepts, cut down to its email and password, passes the login schema. */
  lemma SignUpAcceptedImpliesLogInAccepted(form: Form, isEmail: EmailFormat)
    requires SignUpValidation(form, isEmail).Success?
    ensures LogInValidation(map["email" := form["email"], "password" := form["password"]], isEmail)
            == Success(LogInData(form["email"], form["password"]))
  {
  }

  /** A signup form with a missing field fails with an `invalid_type` issue on that field, and no refinement issue. */
  lemma SignUpMissingFieldIssues(form: Form, isEmail: EmailFormat, key: string)
    requires key in {"email", "password", "confirmPass"} && key !in form
    ensures SignUpValidation(form, isEmail).Failure?
    ensures Issue(key, InvalidType) in SignUpValidation(form, isEmail).error
    ensures Issue(ConfirmPath, Custom) !in SignUpValidation(form, isEmail).error
  {
  }

  // ---------------------------------------------------------------------
  // Edge cases of the password rule.
  // ---------------------------------------------------------------------

  /** Exactly five characters pass, and no lower-case letter is needed. */
  lemma FiveCapitalsAndDigitAccepted()
    ensures StrongPassword("ABCD1")
  {
    assert IsAsciiUpper("ABCD1"[0]) && IsAsciiDigit("ABCD1"[4]);
  }

  /** Four characters pass when two of them lie outside the BMP: `min` counts code units. */
  lemma FourCharactersCanBeLongEnough()
    ensures StrongPassword("A1\U{1F600}\U{1F600}")
  {
    var s := "A1\U{1F600}\U{1F600}";
    assert IsAsciiUpper(s[0]) && IsAsciiDigit(s[1]);
    assert s[1..][1..][1..][1..] == [];
  }

  /** A line break anywhere is rejected, whatever else the password contains. */
  lemma LineBreakRejected(s: string, i: nat)
    requires i < |s| && IsLineTerminator(s[i])
    ensures !StrongPassword(s)
    ensures !PasswordPattern(s)
  {
    PasswordPatternIff(s);
  }
}
