/**
 The part of zod's object/string validation the two form schemas use.

 A schema is an ordered list of fields (the object's shape, in declaration
 order); each field is a string with an ordered list of checks. `safeParse`
 visits the fields in shape order and, for each string, runs EVERY check and
 records one issue per failing check, in the order the checks are written. The
 caller reads `issues[0]`, so the reported message is the first failing check of
 the first invalid field. A key missing from the input yields zod's "Required"
 issue. On success the parsed object holds exactly the shape's keys.

 `.email()` is zod's own regular expression; it is left uninterpreted and passed
 in as the predicate `isEmail`.
 */
module FormSchema {
  import opened Messages

  datatype Check =
    | MinLength(bound: nat, message: Message)
    | MaxLength(bound: nat, message: Message)
    | NonEmpty(message: Message)
    | EmailFormat(message: Message)

  datatype Field = Field(key: string, checks: seq<Check>)

  type Shape = seq<Field>

  /** The plain object handed to `safeParse`. */
  type Record = map<string, string>

  datatype ParseResult = Success(data: Record) | Failure(issues: seq<Message>)

  predicate Passes(c: Check, s: string, isEmail: string -> bool) {
    match c
    case MinLength(n, _) => |s| >= n
    case MaxLength(n, _) => |s| <= n
    case NonEmpty(_) => |s| >= 1
    case EmailFormat(_) => isEmail(s)
  }

  /** Check `k` is the first check of the list that fails on `s`. */
  predicate FirstFailing(checks: seq<Check>, s: string, isEmail: string -> bool, k: int) {
    && 0 <= k < |checks|
    && !Passes(checks[k], s, isEmail)
    && forall j | 0 <= j < k :: Passes(checks[j], s, isEmail)
  }

  /** The issues zod records for one string: one per failing check, in check order. */
  function CheckIssues(checks: seq<Check>, s: string, isEmail: string -> bool): seq<Message> {
    if checks == [] then []
    else (if Passes(checks[0], s, isEmail) then [] else [checks[0].message]) + CheckIssues(checks[1..], s, isEmail)
  }

  /** A string has no issue exactly when it passes every check. */
  lemma {:induction false} CheckIssuesEmptyIff(checks: seq<Check>, s: string, isEmail: string -> bool)
    ensures CheckIssues(checks, s, isEmail) == [] <==> forall k | 0 <= k < |checks| :: Passes(checks[k], s, isEmail)
  {
    if checks != [] {
      CheckIssuesEmptyIff(checks[1..], s, isEmail);
      if forall k | 0 <= k < |checks[1..]| :: Passes(checks[1..][k], s, isEmail) {
        forall k | 1 <= k < |checks| ensures Passes(checks[k], s, isEmail) {
          assert checks[k] == checks[1..][k - 1];
        }
      }
    }
  }

  /** The first issue recorded is the message of the first failing check. */
  lemma {:induction false} CheckIssuesFirst(checks: seq<Check>, s: string, isEmail: string -> bool, k: int)
    requires FirstFailing(checks, s, isEmail, k)
    ensures CheckIssues(checks, s, isEmail) != []
    ensures CheckIssues(checks, s, isEmail)[0] == checks[k].message
  {
    if k > 0 {
      assert Passes(checks[0], s, isEmail);
      assert FirstFailing(checks[1..], s, isEmail, k - 1) by {
        forall j | 0 <= j < k - 1 ensures Passes(checks[1..][j], s, isEmail) {
          assert checks[1..][j] == checks[j + 1];
        }
      }
      CheckIssuesFirst(checks[1..], s, isEmail, k - 1);
    }
  }

  /** Every recorded issue is the message of some failing check. */
  lemma {:induction false} CheckIssuesSound(checks: seq<Check>, s: string, isEmail: string -> bool, i: int)
    requires 0 <= i < |CheckIssues(checks, s, isEmail)|
    ensures exists k | 0 <= k < |checks| ::
              !Passes(checks[k], s, isEmail) && CheckIssues(checks, s, isEmail)[i] == checks[k].message
  {
    var head := if Passes(checks[0], s, isEmail) then [] else [checks[0].message];
    if i < |head| {
      assert !Passes(checks[0], s, isEmail);
    } else {
      CheckIssuesSound(checks[1..], s, isEmail, i - |head|);
      var k :| 0 <= k < |checks[1..]| && !Passes(checks[1..][k], s, isEmail)
               && CheckIssues(checks[1..], s, isEmail)[i - |head|] == checks[1..][k].message;
      assert checks[k + 1] == checks[1..][k];
    }
  }

  /** The issues of one field of `record`. */
  function FieldIssues(f: Field, record: Record, isEmail: string -> bool): seq<Message> {
    if f.key in record then CheckIssues(f.checks, record[f.key], isEmail) else [Required]
  }

  predicate FieldValid(f: Field, record: Record, isEmail: string -> bool) {
    FieldIssues(f, record, isEmail) == []
  }

  /** Field `k` is the first field of the shape with an issue. */
  predicate FirstInvalid(shape: Shape, record: Record, isEmail: string -> bool, k: int) {
    && 0 <= k < |shape|
    && !FieldValid(shape[k], record, isEmail)
    && forall j | 0 <= j < k :: FieldValid(shape[j], record, isEmail)
  }

  /** The issues of the whole object: the fields' issues concatenated in shape order. */
  function ShapeIssues(shape: Shape, record: Record, isEmail: string -> bool): seq<Message> {
    if shape == [] then []
    else FieldIssues(shape[0], record, isEmail) + ShapeIssues(shape[1..], record, isEmail)
  }

  /** The issues of a shape with a first field are that field's issues, then the rest's. */
  lemma ShapeIssuesCons(f: Field, rest: Shape, record: Record, isEmail: string -> bool)
    ensures ShapeIssues([f] + rest, record, isEmail) == FieldIssues(f, record, isEmail) + ShapeIssues(rest, record, isEmail)
  {
    assert ([f] + rest)[0] == f && ([f] + rest)[1..] == rest;
  }

  /** An object has no issue exactly when every field of the shape is valid. */
  lemma {:induction false} ShapeIssuesEmptyIff(shape: Shape, record: Record, isEmail: string -> bool)
    ensures ShapeIssues(shape, record, isEmail) == [] <==> forall k | 0 <= k < |shape| :: FieldValid(shape[k], record, isEmail)
  {
    if shape != [] {
      ShapeIssuesEmptyIff(shape[1..], record, isEmail);
      if forall k | 0 <= k < |shape[1..]| :: FieldValid(shape[1..][k], record, isEmail) {
        forall k | 1 <= k < |shape| ensures FieldValid(shape[k], record, isEmail) {
          assert shape[k] == shape[1..][k - 1];
        }
      }
    }
  }

  /** The first issue of the object is the first issue of its first invalid field. */
  lemma {:induction false} ShapeIssuesFirst(shape: Shape, record: Record, isEmail: string -> bool, k: int)
    requires FirstInvalid(shape, record, isEmail, k)
    ensures ShapeIssues(shape, record, isEmail) != []
    ensures ShapeIssues(shape, record, isEmail)[0] == FieldIssues(shape[k], record, isEmail)[0]
  {
    if k > 0 {
      assert FieldValid(shape[0], record, isEmail);
      assert FirstInvalid(shape[1..], record, isEmail, k - 1) by {
        forall j | 0 <= j < k - 1 ensures FieldValid(shape[1..][j], record, isEmail) {
          assert shape[1..][j] == shape[j + 1];
        }
      }
      ShapeIssuesFirst(shape[1..], record, isEmail, k - 1);
    }
  }

  function Keys(shape: Shape): set<string> {
    set k | 0 <= k < |shape| :: shape[k].key
  }

  /** zod's `safeParse` of an object schema. */
  function SafeParse(shape: Shape, record: Record, isEmail: string -> bool): (res: ParseResult)
    ensures res.Success? <==> forall k | 0 <= k < |shape| :: FieldValid(shape[k], record, isEmail)
    ensures res.Success? ==> res.data.Keys == Keys(shape)
    ensures res.Success? ==> forall key | key in res.data :: key in record && res.data[key] == record[key]
    ensures res.Failure? ==> res.issues != [] && res.issues == ShapeIssues(shape, record, isEmail)
    ensures forall k | FirstInvalid(shape, record, isEmail, k) ::
              res.Failure? && res.issues[0] == FieldIssues(shape[k], record, isEmail)[0]
  {
    ShapeIssuesEmptyIff(shape, record, isEmail);
    assert forall k | FirstInvalid(shape, record, isEmail, k) ::
             ShapeIssues(shape, record, isEmail) != [] && ShapeIssues(shape, record, isEmail)[0] == FieldIssues(shape[k], record, isEmail)[0]
    by {
      forall k | FirstInvalid(shape, record, isEmail, k)
        ensures ShapeIssues(shape, record, isEmail) != []
        ensures ShapeIssues(shape, record, isEmail)[0] == FieldIssues(shape[k], record, isEmail)[0]
      {
        ShapeIssuesFirst(shape, record, isEmail, k);
      }
    }
    var issues := ShapeIssues(shape, record, isEmail);
    if issues == [] then
      assert forall k | 0 <= k < |shape| :: shape[k].key in record;
      Success(map key | key in record && key in Keys(shape) :: record[key])
    else
      Failure(issues)
  }

  /** Two records that agree on the shape's keys (presence and value). */
  ghost predicate AgreeOn(shape: Shape, r1: Record, r2: Record) {
    forall k | 0 <= k < |shape| ::
      && (shape[k].key in r1 <==> shape[k].key in r2)
      && (shape[k].key in r1 ==> r1[shape[k].key] == r2[shape[k].key])
  }

  lemma {:induction false} ShapeIssuesReadOnlyShapeKeys(shape: Shape, r1: Record, r2: Record, isEmail: string -> bool)
    requires AgreeOn(shape, r1, r2)
    ensures ShapeIssues(shape, r1, isEmail) == ShapeIssues(shape, r2, isEmail)
  {
    if shape != [] {
      assert FieldIssues(shape[0], r1, isEmail) == FieldIssues(shape[0], r2, isEmail) by {
        assert shape[0].key in r1 <==> shape[0].key in r2;
      }
      assert AgreeOn(shape[1..], r1, r2) by {
        forall k | 0 <= k < |shape[1..]|
          ensures shape[1..][k].key in r1 <==> shape[1..][k].key in r2
          ensures shape[1..][k].key in r1 ==> r1[shape[1..][k].key] == r2[shape[1..][k].key]
        {
          assert shape[1..][k] == shape[k + 1];
        }
      }
      ShapeIssuesReadOnlyShapeKeys(shape[1..], r1, r2, isEmail);
    }
  }

  /** The verdict (and the parsed object) depends only on the shape's keys: other keys are ignored and stripped. */
  lemma SafeParseReadsOnlyShapeKeys(shape: Shape, r1: Record, r2: Record, isEmail: string -> bool)
    requires AgreeOn(shape, r1, r2)
    ensures SafeParse(shape, r1, isEmail) == SafeParse(shape, r2, isEmail)
  {
    ShapeIssuesReadOnlyShapeKeys(shape, r1, r2, isEmail);
    var p1 := SafeParse(shape, r1, isEmail);
    var p2 := SafeParse(shape, r2, isEmail);
    if p1.Success? {
      assert p1.data.Keys == p2.data.Keys;
      forall key | key in p1.data
        ensures p1.data[key] == p2.data[key]
      {
        var k :| 0 <= k < |shape| && shape[k].key == key;
      }
    }
  }
}
