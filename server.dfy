/**
 * The application serving one POST request after another, each to the end
 * before the next begins, against one table. This is where properties
 * about sequences of requests live: records are never changed or removed,
 * logins never touch the table, repeating a request that changed nothing
 * gives the same answer again, and a user who signed up can log in from
 * then on.
 */
module Server {
  import opened Validation
  import opened Store
  import opened Bcrypt
  import opened Handlers

  /** A POST request; a signup carries the salt its hashing would draw. */
  datatype Request =
    | SignUpRequest(form: Form, salt: Salt)
    | LogInRequest(form: Form)

  /** The answers to a run of requests and the table at its end. */
  datatype Served = Served(responses: seq<Response>, users: Users)

  /** Serve one request. */
  function Serve(users: Users, online: bool, req: Request, isEmail: EmailFormat, hasher: Hasher): (o: Handled)
    ensures req.LogInRequest? ==> o.users == users
  {
    match req
    case SignUpRequest(form, salt) => SignUp(users, online, form, isEmail, hasher, salt)
    case LogInRequest(form) => Handled(LogIn(users, online, form, isEmail, hasher), users)
  }

  /** Serve `reqs` in order, each against the table its predecessors left. */
  function Run(users: Users, online: bool, reqs: seq<Request>, isEmail: EmailFormat, hasher: Hasher): (s: Served)
    ensures |s.responses| == |reqs|
    decreases |reqs|
  {
    if reqs == [] then Served([], users)
    else
      var o := Serve(users, online, reqs[0], isEmail, hasher);
      var rest := Run(o.users, online, reqs[1..], isEmail, hasher);
      Served([o.response] + rest.responses, rest.users)
  }

  /** How many of `reqs` are signups answered with the redirect to /login. */
  function AcceptedSignUps(reqs: seq<Request>, responses: seq<Response>): nat
    requires |reqs| == |responses|
    decreases |reqs|
  {
    if reqs == [] then 0
    else (if reqs[0].SignUpRequest? && responses[0] == Redirect(LogInPath) then 1 else 0)
         + AcceptedSignUps(reqs[1..], responses[1..])
  }

  /** `n` copies of `x`. */
  function Repeat<T>(x: T, n: nat): (s: seq<T>)
    ensures |s| == n
    ensures forall i :: 0 <= i < n ==> s[i] == x
  {
    if n == 0 then [] else [x] + Repeat(x, n - 1)
  }

  /** No run changes or removes a record it started with. */
  lemma {:induction false} RunKeepsRecords(users: Users, online: bool, reqs: seq<Request>, isEmail: EmailFormat, hasher: Hasher)
    ensures var s := Run(users, online, reqs, isEmail, hasher);
      users.Keys <= s.users.Keys && forall e :: e in users ==> s.users[e] == users[e]
    decreases |reqs|
  {
    if reqs != [] {
      var o := Serve(users, online, reqs[0], isEmail, hasher);
      if reqs[0].SignUpRequest? {
        SignUpKeepsRecords(users, online, reqs[0].form, isEmail, hasher, reqs[0].salt);
      }
      RunKeepsRecords(o.users, online, reqs[1..], isEmail, hasher);
    }
  }

  /** The table grows by exactly one record per accepted signup and by nothing else. */
  lemma {:induction false} RunGrowth(users: Users, online: bool, reqs: seq<Request>, isEmail: EmailFormat, hasher: Hasher)
    ensures var s := Run(users, online, reqs, isEmail, hasher);
      |s.users| == |users| + AcceptedSignUps(reqs, s.responses)
    decreases |reqs|
  {
    if reqs != [] {
      var o := Serve(users, online, reqs[0], isEmail, hasher);
      var s := Run(users, online, reqs, isEmail, hasher);
      var rest := Run(o.users, online, reqs[1..], isEmail, hasher);
      RunGrowth(o.users, online, reqs[1..], isEmail, hasher);
      assert s.responses[0] == o.response && s.responses[1..] == rest.responses;
      if reqs[0].LogInRequest? {
        assert o.users == users;
      }
    }
  }

  /** A run of logins only leaves the table as it was. */
  lemma {:induction false} LogInsLeaveTable(users: Users, online: bool, reqs: seq<Request>, isEmail: EmailFormat, hasher: Hasher)
    requires forall i :: 0 <= i < |reqs| ==> reqs[i].LogInRequest?
    ensures Run(users, online, reqs, isEmail, hasher).users == users
    decreases |reqs|
  {
    if reqs != [] {
      LogInsLeaveTable(users, online, reqs[1..], isEmail, hasher);
    }
  }

  /**
   * A request that leaves the table unchanged (every login, and every
   * refused signup) gives the same answer however often it is repeated, and
   * the table stays as it was.
   */
  lemma {:induction false} RepeatUnchanging(users: Users, online: bool, req: Request, n: nat, isEmail: EmailFormat, hasher: Hasher)
    requires Serve(users, online, req, isEmail, hasher).users == users
    ensures Run(users, online, Repeat(req, n), isEmail, hasher)
         == Served(Repeat(Serve(users, online, req, isEmail, hasher).response, n), users)
    decreases n
  {
    if n > 0 {
      var reqs := Repeat(req, n);
      assert reqs[0] == req && reqs[1..] == Repeat(req, n - 1);
      RepeatUnchanging(users, online, req, n - 1, isEmail, hasher);
    }
  }

  /** Once a user's record holds a hash of their password, every later login with it succeeds. */
  lemma RegisteredUserCanLogIn(users: Users, reqs: seq<Request>, isEmail: EmailFormat, hasher: Hasher,
                               email: string, password: string, salt: Salt)
    requires Sound(hasher)
    requires isEmail(email) && StrongPassword(password)
    requires email in users && users[email] == hasher.hash(password, salt)
    ensures LogIn(Run(users, true, reqs, isEmail, hasher).users, true, LogInForm(email, password), isEmail, hasher)
         == SuccessPage(email)
  {
    RunKeepsRecords(users, true, reqs, isEmail, hasher);
    assert hasher.compare(password, hasher.hash(password, salt));
  }

  /** One step of a run: the first request is answered against the table, the rest against its result. */
  lemma RunStep(users: Users, online: bool, req: Request, reqs: seq<Request>, isEmail: EmailFormat, hasher: Hasher)
    ensures var o := Serve(users, online, req, isEmail, hasher);
      Run(users, online, [req] + reqs, isEmail, hasher).responses
        == [o.response] + Run(o.users, online, reqs, isEmail, hasher).responses
  {
    assert ([req] + reqs)[1..] == reqs;
  }

  /** The example password meets the rule. */
  lemma ExamplePasswordStrong()
    ensures StrongPassword("Abcde1")
  {
    assert JsString.IsAsciiUpper("Abcde1"[0]) && JsString.IsAsciiDigit("Abcde1"[5]);
  }

  /** "wrong" has no capital, so it fails the rule. */
  lemma WrongPasswordWeak()
    ensures !StrongPassword("wrong")
  {
    var w := "wrong";
    assert forall i :: 0 <= i < |w| ==> !JsString.IsAsciiUpper(w[i]);
  }

  /** The four requests of the worked example: two equal signups, then a login with the password and one with `wrong`. */
  function ExampleRequests(email: string, password: string, wrong: string, salt: Salt, salt': Salt): seq<Request> {
    [ SignUpRequest(SignUpForm(email, password, password), salt),
      SignUpRequest(SignUpForm(email, password, password), salt'),
      LogInRequest(LogInForm(email, password)),
      LogInRequest(LogInForm(email, wrong)) ]
  }

  /**
   * The worked example, from any table that does not hold `email`: the
   * first signup is accepted, the repeated one is a duplicate, the login
   * with the password succeeds and the login with a password that breaks the
   * rule is sent back.
   */
  lemma Example(users: Users, isEmail: EmailFormat, hasher: Hasher,
                email: string, password: string, wrong: string, salt: Salt, salt': Salt)
    requires Sound(hasher) && isEmail(email) && email !in users
    requires StrongPassword(password) && !StrongPassword(wrong)
    ensures var r := Run(users, true, ExampleRequests(email, password, wrong, salt, salt'), isEmail, hasher).responses;
      && |r| == 4
      && r[0] == Redirect(LogInPath)      // accepted
      && r[1] == Redirect(SignUpPath)     // duplicate
      && r[2] == SuccessPage(email)       // right password
      && r[3] == Redirect(LogInPath)      // the other password fails the rule
  {
    var reqs := ExampleRequests(email, password, wrong, salt, salt');
    var users1 := users[email := hasher.hash(password, salt)];
    ExampleSteps(users, isEmail, hasher, email, password, wrong, salt, salt');
    RunStep(users1, true, reqs[3], [], isEmail, hasher);
    RunStep(users1, true, reqs[2], reqs[3..], isEmail, hasher);
    RunStep(users1, true, reqs[1], reqs[2..], isEmail, hasher);
    RunStep(users, true, reqs[0], reqs[1..], isEmail, hasher);
    assert [reqs[3]] + [] == reqs[3..];
    assert [reqs[2]] + reqs[3..] == reqs[2..];
    assert [reqs[1]] + reqs[2..] == reqs[1..];
    assert [reqs[0]] + reqs[1..] == reqs;
  }

  /** Each request of the example, served on its own. */
  lemma ExampleSteps(users: Users, isEmail: EmailFormat, hasher: Hasher,
                     email: string, password: string, wrong: string, salt: Salt, salt': Salt)
    requires Sound(hasher) && isEmail(email) && email !in users
    requires StrongPassword(password) && !StrongPassword(wrong)
    ensures var reqs := ExampleRequests(email, password, wrong, salt, salt');
      var users1 := users[email := hasher.hash(password, salt)];
      && Serve(users, true, reqs[0], isEmail, hasher) == Handled(Redirect(LogInPath), users1)
      && Serve(users1, true, reqs[1], isEmail, hasher) == Handled(Redirect(SignUpPath), users1)
      && Serve(users1, true, reqs[2], isEmail, hasher) == Handled(SuccessPage(email), users1)
      && Serve(users1, true, reqs[3], isEmail, hasher) == Handled(Redirect(LogInPath), users1)
  {
    var users1 := users[email := hasher.hash(password, salt)];
    SignUpKnownEmailRefused(users1, true, SignUpForm(email, password, password), isEmail, hasher, salt');
    assert hasher.compare(password, hasher.hash(password, salt));
  }

  /** The example with a@x.com, Abcde1 and "wrong", starting from an empty table. */
  lemma Scenario(isEmail: EmailFormat, hasher: Hasher, salt: Salt, salt': Salt)
    requires Sound(hasher) && isEmail("a@x.com")
    ensures var r := Run(map[], true, ExampleRequests("a@x.com", "Abcde1", "wrong", salt, salt'), isEmail, hasher).responses;
      r[0] == Redirect(LogInPath) && r[1] == Redirect(SignUpPath)
      && r[2] == SuccessPage("a@x.com") && r[3] == Redirect(LogInPath)
  {
    ExamplePasswordStrong();
    WrongPasswordWeak();
    Example(map[], isEmail, hasher, "a@x.com", "Abcde1", "wrong", salt, salt');
  }
}
