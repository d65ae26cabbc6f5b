/**
 The login schema: username and password only, with the same checks, in the
 same order and with the same messages, as the sign-up schema.
 */
module LoginSchema {
  import opened Messages
  import opened FormSchema
  import JoinSchema

  const UsernameField: Field :=
    Field("username", [MinLength(3, UsernameTooShort), MaxLength(50, UsernameTooLong), NonEmpty(UsernameRequired)])

  const PasswordField: Field :=
    Field("password", [MinLength(8, PasswordTooShort), MaxLength(30, PasswordTooLong), NonEmpty(PasswordRequired)])

  const LoginShape: Shape := [UsernameField, PasswordField]

  /** The login shape has no `.email()` check, so the email predicate is never consulted. */
  function NoEmailCheck(s: string): bool {
    false
  }

  /** `loginFormSchema` applied to an arbitrary object. */
  function Parse(record: Record): ParseResult {
    SafeParse(LoginShape, record, NoEmailCheck)
  }

  /** The object the login form hands to the schema. */
  function Request(username: string, password: string): Record {
    map["username" := username, "password" := password]
  }

  /** The object's issues are the username's issues followed by the password's. */
  lemma LoginIssues(username: string, password: string)
    ensures ShapeIssues(LoginShape, Request(username, password), NoEmailCheck) ==
              CheckIssues(UsernameField.checks, username, NoEmailCheck) + CheckIssues(PasswordField.checks, password, NoEmailCheck)
  {
    var r := Request(username, password);
    assert "username" in r && r["username"] == username;
    assert "password" in r && r["password"] == password;
    assert LoginShape[1..] == [PasswordField] && [PasswordField][1..] == [];
    assert FieldIssues(UsernameField, r, NoEmailCheck) == CheckIssues(UsernameField.checks, username, NoEmailCheck);
    assert FieldIssues(PasswordField, r, NoEmailCheck) == CheckIssues(PasswordField.checks, password, NoEmailCheck);
    assert ShapeIssues([PasswordField], r, NoEmailCheck) == FieldIssues(PasswordField, r, NoEmailCheck);
  }

  /** A field checked by a minimum, then a maximum length, reports the first bound the value breaks. */
  lemma FirstIssueOfBoundedField(f: Field, value: string)
    requires |f.checks| == 3 && f.checks[0].MinLength? && f.checks[1].MaxLength?
    requires CheckIssues(f.checks, value, NoEmailCheck) != []
    requires f.checks[2].NonEmpty? && f.checks[0].bound >= 1
    ensures CheckIssues(f.checks, value, NoEmailCheck)[0] ==
              if |value| < f.checks[0].bound then f.checks[0].message
              else if |value| > f.checks[1].bound then f.checks[1].message
              else f.checks[2].message
  {
    var cs := f.checks;
    if |value| < cs[0].bound {
      CheckIssuesFirst(cs, value, NoEmailCheck, 0);
    } else if |value| > cs[1].bound {
      CheckIssuesFirst(cs, value, NoEmailCheck, 1);
    } else {
      CheckIssuesEmptyIff(cs, value, NoEmailCheck);
      CheckIssuesFirst(cs, value, NoEmailCheck, 2);
    }
  }

  /** `loginFormSchema.parse({ username, password })` succeeds exactly on the length bounds. */
  function Validate(username: string, password: string): (res: ParseResult)
    ensures res.Success? <==> 3 <= |username| <= 50 && 8 <= |password| <= 30
    ensures res.Success? ==> res.data == Request(username, password)
    ensures res.Failure? ==> res.issues != []
    ensures res.Failure? ==>
              (res.issues[0] ==
                 if |username| < 3 then UsernameTooShort
                 else if |username| > 50 then UsernameTooLong
                 else if |password| < 8 then PasswordTooShort
                 else PasswordTooLong)
  {
    var r := Request(username, password);
    var uc, pc := UsernameField.checks, PasswordField.checks;
    LoginIssues(username, password);
    CheckIssuesEmptyIff(uc, username, NoEmailCheck);
    CheckIssuesEmptyIff(pc, password, NoEmailCheck);
    var res := SafeParse(LoginShape, r, NoEmailCheck);
    if CheckIssues(uc, username, NoEmailCheck) != [] then
      FirstIssueOfBoundedField(UsernameField, username);
      res
    else if CheckIssues(pc, password, NoEmailCheck) != [] then
      FirstIssueOfBoundedField(PasswordField, password);
      res
    else
      assert LoginShape[0].key == "username" && LoginShape[1].key == "password";
      assert Keys(LoginShape) == r.Keys;
      res
  }

  /** The login fields are the join schema's first two fields, checks and messages included. */
  lemma LoginShapeIsJoinPrefix()
    ensures LoginShape == JoinSchema.JoinShape[..2]
  {
  }

  /** Any username/password pair the join schema accepts is accepted by the login schema. */
  lemma JoinAcceptedImpliesLoginAccepted(username: string, password: string, realName: string, email: string, isEmail: string -> bool)
    requires JoinSchema.Validate(username, password, realName, email, isEmail).Success?
    ensures Validate(username, password).Success?
  {
  }

  /** An empty username is rejected, reported with the minimum-length message. */
  lemma EmptyUsernameRejected(password: string)
    ensures Validate("", password).Failure?
    ensures Validate("", password).issues[0] == UsernameTooShort
  {
    assert CheckIssues(UsernameField.checks, "", NoEmailCheck) == [UsernameTooShort, UsernameRequired];
  }

  /** An empty password is rejected; after a valid username it is reported with the minimum-length message. */
  lemma EmptyPasswordRejected(username: string)
    ensures Validate(username, "").Failure?
    ensures 3 <= |username| <= 50 ==> Validate(username, "").issues[0] == PasswordTooShort
  {
    assert CheckIssues(PasswordField.checks, "", NoEmailCheck) == [PasswordTooShort, PasswordRequired];
    CheckIssuesEmptyIff(UsernameField.checks, username, NoEmailCheck);
  }

  /** The verdict, and the parsed object, depend on the username and password keys alone. */
  lemma VerdictIgnoresOtherKeys(r1: Record, r2: Record)
    requires "username" in r1 <==> "username" in r2
    requires "username" in r1 ==> r1["username"] == r2["username"]
    requires "password" in r1 <==> "password" in r2
    requires "password" in r1 ==> r1["password"] == r2["password"]
    ensures Parse(r1) == Parse(r2)
  {
    assert LoginShape[0].key == "username" && LoginShape[1].key == "password";
    SafeParseReadsOnlyShapeKeys(LoginShape, r1, r2, NoEmailCheck);
  }
}
