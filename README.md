# Signup and login service: a Dafny model

This project models the decision-making core of a small Hono web service on
Cloudflare Workers (`src/index.ts`): the two zod form schemas and the two
POST handlers that use them against a D1 `users` table.

- **Validation** — `signUpValidation` and `logInValidation` as functions from
  a submitted form (field name ↦ text) to either the parsed payload or a list
  of field issues. The password rule `min(5)` plus
  `^(?=.*[A-Z])(?=.*\d).+$` is modelled twice: once as the regular
  expression's own semantics (lookaheads anchored at position 0, `.` refusing
  the four ECMAScript line terminators, `$` only at the end), and once as the
  plain rule "at least five UTF-16 code units, an ASCII capital, an ASCII
  digit, no line terminator"; a lemma proves the two agree. zod's email
  format check is a parameter `isEmail`.
- **Store** — the `users` table as a class holding `email ↦ password hash` and
  a flag saying whether the database answers; count, select and insert are
  its methods, and the insert refuses a known email as the primary key does.
- **Handlers** — POST /signup and POST /login, each as a specification
  function on the table and as a method that takes the handler's own steps
  (validate, count, hash, insert, redirect; validate, select, destructure,
  compare, answer) and is proved equal to that function. bcrypt is a pair of
  functions `hash(password, salt)` and `compare(password, stored)`; the round
  trip relies only on `compare(p, hash(p, salt))`.
- **Server** — requests served one after another against one table, for
  the properties about sequences of requests.

Facts the model makes explicit:

- `min(5)` counts UTF-16 code units, so four characters can be long enough
  when two of them lie outside the Basic Multilingual Plane.
- The rule needs neither a lower-case letter nor more than five characters,
  whatever the error messages say.
- A missing field aborts the object parse, so the refinement that compares the
  two passwords does not run. A field that is present but fails its checks does
  not abort, so the refinement still runs and can add its issue on
  `confirm_pass`. That path is not the name of any form field (`confirmPass`).
  This follows zod version 3. The zod version in use is not part of this model.
- In POST /login the guard `user === null` can never fire: destructuring an
  empty result array gives `undefined`. The next line then throws, the catch
  turns that into the redirect to /login, and the outcome is the one the guard
  meant to give (`Handlers.Destructure`, `Handlers.PostLogIn`).
- An unknown email, a wrong password, an invalid form and a failing store all
  give the same redirect to /login. On signup, an invalid form, a known email
  and a failing store all give the same redirect to /signup.

## Model

| member | source | states |
|---|---|---|
| `JsString.CodeUnits` | src/index.ts:18 | a character takes one UTF-16 code unit, or two exactly when it lies above U+FFFF |
| `JsString.Utf16Length` | src/index.ts:18 | the JavaScript `length` of a string is between its number of characters and twice that |
| `JsString.Utf16LengthIsSizeIffBmp` | src/index.ts:18-19 | `length` equals the number of characters iff every character is in the BMP |
| `Validation.PasswordPattern` | src/index.ts:18 | defines the regex `^(?=.*[A-Z])(?=.*\d).+$` as `RegExp.test` runs it without flags: both lookaheads at position 0, `.` refusing line terminators, `$` only at the end |
| `Validation.StrongPassword` | src/index.ts:18-19 | defines the combined `min(5).regex(...)` rule: at least five UTF-16 code units, an ASCII capital, an ASCII digit, no line terminator |
| `Validation.LookaheadOnLineFree` | src/index.ts:18 | on a string without line terminators, `(?=.*C)` at the start succeeds iff some character is in class C |
| `Validation.PasswordPatternIff` | src/index.ts:18-19 | the pattern accepts a string iff it has an ASCII capital and an ASCII digit and no line terminator |
| `Validation.PasswordIssues` | src/index.ts:18-19 | `min(5).regex(...)` reports no issue iff the password rule holds, and every issue is on the field's own path |
| `Validation.EmailIssues` | src/index.ts:17 | `.email()` reports no issue iff the format check holds, on the field's own path |
| `Validation.FieldIssues` | src/index.ts:16-19 | a field has no issues iff it is present and its rule holds; a missing field gives exactly one `invalid_type` issue |
| `Validation.SignUpValidation` | src/index.ts:16-25 | signup parses iff all three fields are present, the email passes, both passwords satisfy the rule and they are equal; the payload is the three fields; a failure has issues; when all three fields are present and the passwords differ, a custom issue on `confirm_pass` is among the issues, and it is the only one if every field passes on its own |
| `Validation.LogInValidation` | src/index.ts:27-30 | login parses iff email and password are present, the email passes and the password satisfies the rule; the payload is the two fields |
| `Validation.SignUpAcceptedImpliesLogInAccepted` | src/index.ts:16-30 | the email and password of an accepted signup form pass the login schema |
| `Validation.SignUpMissingFieldIssues` | src/index.ts:16-25 | a missing signup field is reported as `invalid_type` on that field and the refinement adds nothing |
| `Validation.FiveCapitalsAndDigitAccepted` | src/index.ts:18 | "ABCD1" is accepted: five characters suffice and no lower-case letter is needed |
| `Validation.FourCharactersCanBeLongEnough` | src/index.ts:18 | a four-character password with two non-BMP characters meets `min(5)` and is accepted |
| `Validation.LineBreakRejected` | src/index.ts:18 | a line terminator anywhere makes both the pattern and the rule fail |
| `Bcrypt.Sound` | src/index.ts:64-98 | the one fact assumed of `bcryptjs.hash` and `bcryptjs.compare`: a password matches every hash made from it, whatever the salt |
| `Store.Database.constructor` | src/db/schema.ts:3-6 | a new table handle holds the given rows and availability |
| `Store.Database.CountByEmail` | src/index.ts:58-59 | the count is 1 if the email is recorded and 0 otherwise; a store that does not answer fails |
| `Store.Database.SelectByEmail` | src/index.ts:91-94 | the selection is the email's one row if recorded and empty otherwise; a store that does not answer fails |
| `Store.Database.Insert` | src/index.ts:66-69 | inserting a new email adds exactly that row; a known email fails on the primary key and a store that does not answer fails, both leaving the rows unchanged |
| `Handlers.SignUp` | src/index.ts:46-79 | signup redirects to /login iff the form parses, the store answers and the email is new, and then the table gains exactly `email ↦ hash(password, salt)` and one record; otherwise it redirects to /signup and the table is unchanged |
| `Handlers.LogIn` | src/index.ts:81-111 | login shows the success page for the submitted email iff the form parses, the store answers, the email is recorded and the password matches its hash; otherwise it redirects to /login |
| `Handlers.Destructure` | src/index.ts:91-96 | `const [user] = rows` is `undefined` exactly for no rows, the first row otherwise, and never `null` |
| `Handlers.PostSignUp` | src/index.ts:46-79 | the handler's steps leave the response and the table that `SignUp` gives, and do not change availability |
| `Handlers.PostLogIn` | src/index.ts:81-111 | the handler's steps, which only read the table, give the response `LogIn` gives |
| `Handlers.SignUpMismatchRefused` | src/index.ts:20-25 | a signup whose passwords differ redirects to /signup and leaves the table unchanged |
| `Handlers.SignUpKnownEmailRefused` | src/index.ts:58-61 | a signup for a recorded email redirects to /signup and leaves the table unchanged |
| `Handlers.SignUpKeepsRecords` | src/index.ts:56-74 | no signup changes or removes an existing record |
| `Handlers.SignUpTwiceIsDuplicate` | src/index.ts:58-61 | repeating an accepted signup, with any salt, is refused as a duplicate and changes nothing |
| `Handlers.LogInFailuresAlike` | src/index.ts:91-106 | an unknown email and a recorded email with a wrong password get the same redirect to /login |
| `Handlers.SignUpThenLogIn` | src/index.ts:64-101 | after an accepted signup, logging in with its email and password shows the success page for that email |
| `Server.Serve` | src/index.ts:81-111 | serving a login request never changes the table |
| `Server.Run` | src/index.ts:46-111 | a run answers each request exactly once |
| `Server.RunKeepsRecords` | src/index.ts:56-74 | over any sequence of requests, every record present at the start is still present and unchanged |
| `Server.RunGrowth` | src/index.ts:64-74 | over any sequence of requests, the table grows by exactly the number of signups answered with the redirect to /login |
| `Server.LogInsLeaveTable` | src/index.ts:81-111 | any sequence of logins leaves the table as it was |
| `Server.RepeatUnchanging` | src/index.ts:46-111 | a request that changes nothing (every login, every refused signup), repeated n times, gives n equal responses and leaves the table as it was |
| `Server.RegisteredUserCanLogIn` | src/index.ts:91-101 | once a record holds a hash of a valid password, logging in with it succeeds after any later sequence of requests |
| `Server.Example` | src/index.ts:46-111 | from any table without the email, a signup with a valid password, the same signup again, a login with that password and a login with a password breaking the rule give /login, /signup, the success page for the email, and /login |
| `Server.Scenario` | src/index.ts:46-111 | from an empty table, signing up a@x.com with Abcde1, repeating that signup, logging in with Abcde1 and then with "wrong" give /login, /signup, the success page for a@x.com, and /login |

## Left out

- GET /, GET /signup, GET /login and the 404 handler (src/index.ts:33-44, 113-116): they return fixed HTML, so there is no logic to model.
- The HTML templates in src/templates.ts: constant markup.
- Hono routing, `parseBody`, redirect status codes and the request/response objects: plumbing. A form is taken as already parsed into text fields. A field submitted as a file, which `z.string()` would reject, is not modelled.
- The SQL that drizzle builds and D1 runs: replaced by lookups and updates on a map keyed by email. SQLite's default binary collation makes that key comparison exact.
- Store failures: a single availability flag on the table stands for every error the D1 binding can raise. A store that fails on one query and answers the next is not modelled; the catch blocks would give the same redirect anyway.
- bcrypt internals and the cost factor 12: `hash` and `compare` are parameters, with `compare(p, hash(p, salt))` as the only assumed fact. bcrypt only uses the first 72 bytes of a password, so other passwords also match, but nothing here depends on that. The random salt is an input.
- zod's email format: a parameter `isEmail`, because that check is inside the library.
- Error messages and issue codes beyond their kind and path; `console.error` / `console.log` output.
- The race between the count and the insert under concurrent signups: every request is served whole before the next one starts.
- Lone UTF-16 surrogates. A Dafny `char` is a Unicode scalar value, so a string holding an unpaired surrogate cannot be written down. Paired surrogates match neither character class and are not line terminators, so the regex semantics over scalar values agree with JavaScript's over code units.
- `Handlers.SignUp` does not prove that the stored hash differs from the plaintext password: the abstract `hash` promises nothing about it.
