/**
 The sign-up schema: username, password, real name and email, each a string
 with length bounds, checked in that order.
 */
module JoinSchema {
  import opened Messages
  import opened FormSchema

  const UsernameField: Field :=
    Field("username", [MinLength(3, UsernameTooShort), MaxLength(50, UsernameTooLong), NonEmpty(UsernameRequired)])

  const PasswordField: Field :=
    Field("password", [MinLength(8, PasswordTooShort), MaxLength(30, PasswordTooLong), NonEmpty(PasswordRequired)])

  const RealNameField: Field :=
    Field("real-name", [MaxLength(50, NameTooLong), NonEmpty(NameRequired)])

  const EmailField: Field :=
    Field("email", [MaxLength(100, EmailTooLong), NonEmpty(EmailRequired), EmailFormat(EmailInvalid)])

  const JoinShape: Shape := [UsernameField, PasswordField, RealNameField, EmailField]

  /** The object the join form hands to the schema (and, unchanged, to the server). */
  function Request(username: string, password: string, realName: string, email: string): Record {
    map["username" := username, "password" := password, "real-name" := realName, "email" := email]
  }

  /** The issues recorded for one value under one field's checks. */
  function Issues(f: Field, value: string, isEmail: string -> bool): seq<Message> {
    CheckIssues(f.checks, value, isEmail)
  }

  /** Each field of the request reads the value the form supplied for it. */
  lemma RequestFields(username: string, password: string, realName: string, email: string, isEmail: string -> bool)
    ensures var r := Request(username, password, realName, email);
            && FieldIssues(UsernameField, r, isEmail) == Issues(UsernameField, username, isEmail)
            && FieldIssues(PasswordField, r, isEmail) == Issues(PasswordField, password, isEmail)
            && FieldIssues(RealNameField, r, isEmail) == Issues(RealNameField, realName, isEmail)
            && FieldIssues(EmailField, r, isEmail) == Issues(EmailField, email, isEmail)
  {
    var r := Request(username, password, realName, email);
    assert "username" in r && r["username"] == username;
    assert "password" in r && r["password"] == password;
    assert "real-name" in r && r["real-name"] == realName;
    assert "email" in r && r["email"] == email;
  }

  /** A shape's issues are its fields' issues, concatenated in order. */
  lemma {:induction false} ShapeIssuesOfFour(f0: Field, f1: Field, f2: Field, f3: Field, r: Record, isEmail: string -> bool)
    ensures ShapeIssues([f0, f1, f2, f3], r, isEmail) ==
              FieldIssues(f0, r, isEmail) + FieldIssues(f1, r, isEmail) + FieldIssues(f2, r, isEmail) + FieldIssues(f3, r, isEmail)
  {
    var s1 := [f1, f2, f3];
    var s2 := [f2, f3];
    var s3 := [f3];
    var i0, i1, i2, i3 := FieldIssues(f0, r, isEmail), FieldIssues(f1, r, isEmail), FieldIssues(f2, r, isEmail), FieldIssues(f3, r, isEmail);
    assert [f0, f1, f2, f3] == [f0] + s1 && s1 == [f1] + s2 && s2 == [f2] + s3 && s3 == [f3] + [];
    calc {
      ShapeIssues([f0, f1, f2, f3], r, isEmail);
      { ShapeIssuesCons(f0, s1, r, isEmail); }
      i0 + ShapeIssues(s1, r, isEmail);
      { ShapeIssuesCons(f1, s2, r, isEmail); }
      i0 + (i1 + ShapeIssues(s2, r, isEmail));
      { ShapeIssuesCons(f2, s3, r, isEmail); }
      i0 + (i1 + (i2 + ShapeIssues(s3, r, isEmail)));
      { ShapeIssuesCons(f3, [], r, isEmail); }
      i0 + (i1 + (i2 + (i3 + [])));
      i0 + i1 + i2 + i3;
    }
  }

  /** The object's issues are the four fields' issues, in declaration order. */
  lemma JoinIssues(username: string, password: string, realName: string, email: string, isEmail: string -> bool)
    ensures ShapeIssues(JoinShape, Request(username, password, realName, email), isEmail) ==
              Issues(UsernameField, username, isEmail) + Issues(PasswordField, password, isEmail)
              + Issues(RealNameField, realName, isEmail) + Issues(EmailField, email, isEmail)
  {
    ShapeIssuesOfFour(UsernameField, PasswordField, RealNameField, EmailField, Request(username, password, realName, email), isEmail);
    RequestFields(username, password, realName, email, isEmail);
  }

  lemma KeysOfJoinShape()
    ensures Keys(JoinShape) == {"username", "password", "real-name", "email"}
  {
    assert JoinShape[0].key == "username";
    assert JoinShape[1].key == "password";
    assert JoinShape[2].key == "real-name";
    assert JoinShape[3].key == "email";
  }

  /** Each field's own acceptance condition. */
  lemma FieldBounds(username: string, password: string, realName: string, email: string, isEmail: string -> bool)
    ensures Issues(UsernameField, username, isEmail) == [] <==> 3 <= |username| <= 50
    ensures Issues(PasswordField, password, isEmail) == [] <==> 8 <= |password| <= 30
    ensures Issues(RealNameField, realName, isEmail) == [] <==> 1 <= |realName| <= 50
    ensures Issues(EmailField, email, isEmail) == [] <==> 1 <= |email| <= 100 && isEmail(email)
  {
    CheckIssuesEmptyIff(UsernameField.checks, username, isEmail);
    CheckIssuesEmptyIff(PasswordField.checks, password, isEmail);
    CheckIssuesEmptyIff(RealNameField.checks, realName, isEmail);
    CheckIssuesEmptyIff(EmailField.checks, email, isEmail);
    assert Passes(EmailField.checks[2], email, isEmail) == isEmail(email);
  }

  /** A successful parse of the join request returns the request itself. */
  lemma SuccessDataIsRequest(username: string, password: string, realName: string, email: string, isEmail: string -> bool)
    requires SafeParse(JoinShape, Request(username, password, realName, email), isEmail).Success?
    ensures SafeParse(JoinShape, Request(username, password, realName, email), isEmail).data == Request(username, password, realName, email)
  {
    KeysOfJoinShape();
  }

  /** `joinFormSchema.safeParse` of the form's four fields. */
  function Validate(username: string, password: string, realName: string, email: string, isEmail: string -> bool): (res: ParseResult)
    ensures res.Success? <==>
              && 3 <= |username| <= 50
              && 8 <= |password| <= 30
              && 1 <= |realName| <= 50
              && 1 <= |email| <= 100
              && isEmail(email)
    ensures res.Success? ==> res.data == Request(username, password, realName, email)
    ensures res.Failure? ==> res.issues == ShapeIssues(JoinShape, Request(username, password, realName, email), isEmail)
  {
    var r := Request(username, password, realName, email);
    JoinIssues(username, password, realName, email, isEmail);
    FieldBounds(username, password, realName, email, isEmail);
    var res := SafeParse(JoinShape, r, isEmail);
    if res.Success? then
      SuccessDataIsRequest(username, password, realName, email, isEmail);
      res
    else
      res
  }

  /**
   The reported message is the first issue of the first invalid field, taking
   the fields in declaration order: username, password, real name, email.
   */
  lemma FirstIssueFollowsFieldOrder(username: string, password: string, realName: string, email: string, isEmail: string -> bool)
    ensures var res := Validate(username, password, realName, email, isEmail);
            res.Failure? ==>
              res.issues[0] ==
                if Issues(UsernameField, username, isEmail) != [] then Issues(UsernameField, username, isEmail)[0]
                else if Issues(PasswordField, password, isEmail) != [] then Issues(PasswordField, password, isEmail)[0]
                else if Issues(RealNameField, realName, isEmail) != [] then Issues(RealNameField, realName, isEmail)[0]
                else Issues(EmailField, email, isEmail)[0]
  {
    JoinIssues(username, password, realName, email, isEmail);
  }

  /**
   In a field checked by `min(m)` (m at least 1), then `max`, then `nonempty`,
   the `nonempty` check decides nothing: acceptance is the same without it, and
   whenever it fails the `min` check has already failed ahead of it.
   */
  lemma NonEmptyAfterMinRedundant(f: Field, value: string, isEmail: string -> bool)
    requires |f.checks| == 3 && f.checks[0].MinLength? && f.checks[0].bound >= 1 && f.checks[2].NonEmpty?
    ensures CheckIssues(f.checks, value, isEmail) == [] <==> CheckIssues(f.checks[..2], value, isEmail) == []
    ensures !Passes(f.checks[2], value, isEmail) ==>
              CheckIssues(f.checks, value, isEmail) != [] && CheckIssues(f.checks, value, isEmail)[0] == f.checks[0].message
  {
    CheckIssuesEmptyIff(f.checks, value, isEmail);
    CheckIssuesEmptyIff(f.checks[..2], value, isEmail);
    if !Passes(f.checks[2], value, isEmail) {
      CheckIssuesFirst(f.checks, value, isEmail, 0);
    }
  }

  /**
   The `nonempty` checks on username and password never decide anything: a
   value passes all three checks exactly when it passes `min` and `max`, and an
   "enter a ..." issue always comes after the minimum-length one.
   */
  lemma NonEmptyChecksRedundant(value: string, isEmail: string -> bool)
    ensures Issues(UsernameField, value, isEmail) == [] <==> CheckIssues(UsernameField.checks[..2], value, isEmail) == []
    ensures Issues(PasswordField, value, isEmail) == [] <==> CheckIssues(PasswordField.checks[..2], value, isEmail) == []
    ensures UsernameRequired in Issues(UsernameField, value, isEmail) ==> Issues(UsernameField, value, isEmail)[0] == UsernameTooShort
    ensures PasswordRequired in Issues(PasswordField, value, isEmail) ==> Issues(PasswordField, value, isEmail)[0] == PasswordTooShort
  {
    NonEmptyAfterMinRedundant(UsernameField, value, isEmail);
    NonEmptyAfterMinRedundant(PasswordField, value, isEmail);
    if UsernameRequired in Issues(UsernameField, value, isEmail) {
      var i :| 0 <= i < |Issues(UsernameField, value, isEmail)| && Issues(UsernameField, value, isEmail)[i] == UsernameRequired;
      CheckIssuesSound(UsernameField.checks, value, isEmail, i);
    }
    if PasswordRequired in Issues(PasswordField, value, isEmail) {
      var i :| 0 <= i < |Issues(PasswordField, value, isEmail)| && Issues(PasswordField, value, isEmail)[i] == PasswordRequired;
      CheckIssuesSound(PasswordField.checks, value, isEmail, i);
    }
  }

  /**
   An empty username is reported with the minimum-length message, because
   `min(3)` is written before `nonempty`; the "enter a username" issue is
   recorded too, second.
   */
  lemma EmptyUsernameReportsMinLength(password: string, realName: string, email: string, isEmail: string -> bool)
    ensures var res := Validate("", password, realName, email, isEmail);
            res.Failure? && res.issues[0] == UsernameTooShort && res.issues[1] == UsernameRequired
  {
    JoinIssues("", password, realName, email, isEmail);
    assert Issues(UsernameField, "", isEmail) == [UsernameTooShort, UsernameRequired];
  }

  /**
   With a valid username and password, an empty real name is reported with the
   "enter a name" message: `max(50)` passes on the empty string.
   */
  lemma EmptyRealNameReportsRequired(username: string, password: string, email: string, isEmail: string -> bool)
    requires 3 <= |username| <= 50 && 8 <= |password| <= 30
    ensures var res := Validate(username, password, "", email, isEmail);
            res.Failure? && res.issues[0] == NameRequired
  {
    FirstIssueFollowsFieldOrder(username, password, "", email, isEmail);
    FieldBounds(username, password, "", email, isEmail);
    assert Issues(RealNameField, "", isEmail) == [NameRequired];
  }

  /**
   With the other fields valid, an empty email is reported with the "enter an
   email" message; the format issue, if zod's predicate rejects "", follows it.
   */
  lemma EmptyEmailReportsRequiredBeforeFormat(username: string, password: string, realName: string, isEmail: string -> bool)
    requires 3 <= |username| <= 50 && 8 <= |password| <= 30 && 1 <= |realName| <= 50
    ensures var res := Validate(username, password, realName, "", isEmail);
            && res.Failure?
            && res.issues[0] == EmailRequired
            && Issues(EmailField, "", isEmail) == [EmailRequired] + (if isEmail("") then [] else [EmailInvalid])
  {
    FirstIssueFollowsFieldOrder(username, password, realName, "", isEmail);
    FieldBounds(username, password, realName, "", isEmail);
    assert Issues(EmailField, "", isEmail) == [EmailRequired] + (if isEmail("") then [] else [EmailInvalid]) by {
      var cs := EmailField.checks;
      assert cs[1..][1..][1..] == [];
      assert CheckIssues(cs[1..][1..], "", isEmail) == (if isEmail("") then [] else [EmailInvalid]);
      assert CheckIssues(cs[1..], "", isEmail) == [EmailRequired] + CheckIssues(cs[1..][1..], "", isEmail);
    }
  }
}
