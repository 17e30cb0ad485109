/**
 * The two POST handlers. Each is given twice: once as a function from the
 * table's contents (and whether the store answers) to the response and the
 * new contents, and once as a method that takes the same steps as the
 * handler, against a `Database`, and is proved to agree with the function.
 * Every error inside a handler is caught and turned into the redirect back
 * to the form, so an error shows up only as that redirect.
 */
module Handlers {
  import opened Wrappers
  import opened Validation
  import opened Store
  import opened Bcrypt

  /** The answers the POST routes give. */
  datatype Response =
    | Redirect(location: string)
    | SuccessPage(email: string)   // "You logged in successfully!", echoing the email

  const SignUpPath := "/signup"
  const LogInPath := "/login"

  /** The response to a request and the table afterwards. */
  datatype Handled = Handled(response: Response, users: Users)

  /** A submitted signup form. */
  function SignUpForm(email: string, password: string, confirmPass: string): Form {
    map["email" := email, "password" := password, "confirmPass" := confirmPass]
  }

  /** A submitted login form. */
  function LogInForm(email: string, password: string): Form {
    map["email" := email, "password" := password]
  }

  /**
   * POST /signup. An invalid form, an unanswered store and a known email all
   * end in the redirect to /signup with the table untouched; otherwise the
   * email is recorded with a hash of the password and the user is sent to
   * /login.
   */
  function SignUp(users: Users, online: bool, form: Form, isEmail: EmailFormat, hasher: Hasher, salt: Salt)
    : (o: Handled)
    ensures o.response == Redirect(LogInPath) || o.response == Redirect(SignUpPath)
    ensures o.response == Redirect(LogInPath) <==>
      SignUpValidation(form, isEmail).Success? && online && form["email"] !in users
    ensures o.response == Redirect(SignUpPath) ==> o.users == users
    ensures o.response == Redirect(LogInPath) ==>
      && o.users == users[form["email"] := hasher.hash(form["password"], salt)]
      && o.users.Keys == users.Keys + {form["email"]}
      && |o.users| == |users| + 1
  {
    match SignUpValidation(form, isEmail)
    case Failure(_) => Handled(Redirect(SignUpPath), users)
    case Success(data) =>
      if !online || data.email in users then Handled(Redirect(SignUpPath), users)
      else Handled(Redirect(LogInPath), users[data.email := hasher.hash(data.password, salt)])
  }

  /**
   * POST /login. The success page comes back exactly when the form is valid,
   * the store answers, the email is recorded and the password matches its
   * hash; every other case, whatever its cause, is the same redirect to /login.
   */
  function LogIn(users: Users, online: bool, form: Form, isEmail: EmailFormat, hasher: Hasher): (r: Response)
    ensures r.SuccessPage? <==>
      && LogInValidation(form, isEmail).Success?
      && online
      && form["email"] in users
      && hasher.compare(form["password"], users[form["email"]])
    ensures r.SuccessPage? ==> r.email == form["email"]
    ensures !r.SuccessPage? ==> r == Redirect(LogInPath)
  {
    match LogInValidation(form, isEmail)
    case Failure(_) => Redirect(LogInPath)
    case Success(data) =>
      if online && data.email in users && hasher.compare(data.password, users[data.email])
      then SuccessPage(data.email)
      else Redirect(LogInPath)
  }

  /** A JavaScript value that destructuring a result array can give. */
  datatype JsRow = Undefined | Null | Row(row: UserRow)

  /** `const [user] = rows`: the first row, or `undefined` when there is none; never `null`. */
  function Destructure(rows: seq<UserRow>): (v: JsRow)
    ensures !v.Null?
    ensures v.Undefined? <==> rows == []
    ensures v.Row? ==> v.row == rows[0]
  {
    if rows == [] then Undefined else Row(rows[0])
  }

  /** The steps of POST /signup: validate, count, hash, insert, redirect. */
  method PostSignUp(db: Database, form: Form, isEmail: EmailFormat, hasher: Hasher, salt: Salt)
    returns (response: Response)
    modifies db
    ensures db.online == old(db.online)
    ensures Handled(response, db.users) == SignUp(old(db.users), old(db.online), form, isEmail, hasher, salt)
  {
    var formStatus := SignUpValidation(form, isEmail);
    if formStatus.Failure? {
      return Redirect(SignUpPath);
    }
    var data := formStatus.value;
    var result := db.CountByEmail(data.email);
    if result.Failure? {
      return Redirect(SignUpPath);      // caught store failure
    }
    var userCount := result.value;
    if userCount > 0 {
      return Redirect(SignUpPath);      // "User already exists", caught
    }
    var hashPassword := hasher.hash(data.password, salt);
    var inserted := db.Insert(UserRow(data.email, hashPassword));
    if inserted.Fail? {
      return Redirect(SignUpPath);      // caught store failure
    }
    return Redirect(LogInPath);
  }

  /** The steps of POST /login: validate, select, compare, answer. It only reads the table. */
  method PostLogIn(db: Database, form: Form, isEmail: EmailFormat, hasher: Hasher) returns (response: Response)
    ensures response == LogIn(db.users, db.online, form, isEmail, hasher)
  {
    var formStatus := LogInValidation(form, isEmail);
    if formStatus.Failure? {
      return Redirect(LogInPath);       // "Validation failed"
    }
    var data := formStatus.value;
    var rows := db.SelectByEmail(data.email);
    if rows.Failure? {
      return Redirect(LogInPath);       // caught store failure
    }
    var user := Destructure(rows.value);
    if user.Null? {
      return Redirect(LogInPath);       // the `user === null` guard
    }
    if user.Undefined? {
      return Redirect(LogInPath);       // reading `user.password` throws, caught
    }
    var isMatching := hasher.compare(data.password, user.row.password);
    if isMatching {
      return SuccessPage(data.email);
    }
    return Redirect(LogInPath);         // "Invalid Credentials", caught
  }

  // ---------------------------------------------------------------------
  // Properties of the two handlers.
  // ---------------------------------------------------------------------

  /** Mismatched passwords are refused and leave the table alone, whatever else the form holds. */
  lemma SignUpMismatchRefused(users: Users, online: bool, form: Form, isEmail: EmailFormat, hasher: Hasher, salt: Salt)
    requires "password" in form && "confirmPass" in form && form["password"] != form["confirmPass"]
    ensures SignUp(users, online, form, isEmail, hasher, salt) == Handled(Redirect(SignUpPath), users)
  {
  }

  /** A recorded email is refused and its record, like every other, is kept. */
  lemma SignUpKnownEmailRefused(users: Users, online: bool, form: Form, isEmail: EmailFormat, hasher: Hasher, salt: Salt)
    requires "email" in form && form["email"] in users
    ensures SignUp(users, online, form, isEmail, hasher, salt) == Handled(Redirect(SignUpPath), users)
  {
  }

  /** Whatever the outcome, no record that existed before a signup changes or disappears. */
  lemma SignUpKeepsRecords(users: Users, online: bool, form: Form, isEmail: EmailFormat, hasher: Hasher, salt: Salt)
    ensures var o := SignUp(users, online, form, isEmail, hasher, salt);
      users.Keys <= o.users.Keys && forall e :: e in users ==> o.users[e] == users[e]
  {
  }

  /** The same signup submitted again after it succeeded is refused as a duplicate, with any salt. */
  lemma SignUpTwiceIsDuplicate(users: Users, online: bool, form: Form, isEmail: EmailFormat, hasher: Hasher, salt: Salt, salt': Salt)
    requires SignUp(users, online, form, isEmail, hasher, salt).response == Redirect(LogInPath)
    ensures var o := SignUp(users, online, form, isEmail, hasher, salt);
      SignUp(o.users, online, form, isEmail, hasher, salt') == Handled(Redirect(SignUpPath), o.users)
  {
  }

  /** An unknown email and a known email with a wrong password get the same answer. */
  lemma LogInFailuresAlike(users: Users, online: bool, isEmail: EmailFormat, hasher: Hasher,
                           unknown: string, known: string, p: string, q: string)
    requires unknown !in users
    requires known in users && !hasher.compare(q, users[known])
    ensures LogIn(users, online, LogInForm(unknown, p), isEmail, hasher)
         == LogIn(users, online, LogInForm(known, q), isEmail, hasher)
         == Redirect(LogInPath)
  {
  }

  /**
   * The round trip: once a signup form is accepted, logging in with its email
   * and password shows the success page for that email.
   */
  lemma SignUpThenLogIn(users: Users, form: Form, isEmail: EmailFormat, hasher: Hasher, salt: Salt)
    requires Sound(hasher)
    requires SignUp(users, true, form, isEmail, hasher, salt).response == Redirect(LogInPath)
    ensures var o := SignUp(users, true, form, isEmail, hasher, salt);
      LogIn(o.users, true, LogInForm(form["email"], form["password"]), isEmail, hasher)
        == SuccessPage(form["email"])
  {
    SignUpAcceptedImpliesLogInAccepted(form, isEmail);
    assert hasher.compare(form["password"], hasher.hash(form["password"], salt));
  }
}
