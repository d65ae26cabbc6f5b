/**
 The join form's own email test, `/^[\S]+@[\S]+\.[\S]+$/`, applied with
 `RegExp.prototype.test` (no flags).

 Three descriptions of the same set of strings:
 - `Matches`: the regular expression's language, read off its structure:
   a non-empty run of non-whitespace, '@', a non-empty run, '.', a non-empty run;
 - `Accepts`: the position characterization: no whitespace anywhere, an '@' at
   some index i > 0 and a '.' at some index j with i + 1 < j < |s| - 1;
 - `Test`: a left-to-right scan, the way an implementation decides it.
 */
module EmailRegex {

  /** `\s` of ECMAScript regular expressions: the WhiteSpace and LineTerminator code points. */
  predicate IsWhitespace(c: char) {
    || c == '\t' || c == '\n' || c == '\U{000B}' || c == '\U{000C}' || c == '\r' || c == ' '
    || c == '\U{00A0}' || c == '\U{1680}' || ('\U{2000}' <= c <= '\U{200A}')
    || c == '\U{2028}' || c == '\U{2029}' || c == '\U{202F}' || c == '\U{205F}'
    || c == '\U{3000}' || c == '\U{FEFF}'
  }

  predicate NoWhitespace(s: string) {
    forall k | 0 <= k < |s| :: !IsWhitespace(s[k])
  }

  /** `[\S]+`: one or more non-whitespace characters. */
  predicate NonWhitespaceRun(t: string) {
    |t| > 0 && NoWhitespace(t)
  }

  /** The language of `^[\S]+@[\S]+\.[\S]+$`, one split of `s` per way the pattern can match. */
  ghost predicate Matches(s: string) {
    exists i, j | 0 <= i < j < |s| ::
      && NonWhitespaceRun(s[..i])
      && s[i] == '@'
      && NonWhitespaceRun(s[i + 1..j])
      && s[j] == '.'
      && NonWhitespaceRun(s[j + 1..])
  }

  /** An '@' at i and a '.' at j, each with at least one character on either side. */
  predicate Separators(s: string, i: int, j: int) {
    0 < i && i + 1 < j < |s| - 1 && s[i] == '@' && s[j] == '.'
  }

  /** The position characterization of the pattern. */
  predicate Accepts(s: string) {
    NoWhitespace(s) && exists i, j | 0 <= i < |s| && 0 <= j < |s| :: Separators(s, i, j)
  }

  /** The regular expression matches exactly the strings the position characterization accepts. */
  lemma MatchesIffAccepts(s: string)
    ensures Matches(s) <==> Accepts(s)
  {
    if Matches(s) {
      var i, j :| 0 <= i < j < |s| && NonWhitespaceRun(s[..i]) && s[i] == '@'
                  && NonWhitespaceRun(s[i + 1..j]) && s[j] == '.' && NonWhitespaceRun(s[j + 1..]);
      forall k | 0 <= k < |s| ensures !IsWhitespace(s[k]) {
        if k < i {
          assert s[k] == s[..i][k];
        } else if i < k < j {
          assert s[k] == s[i + 1..j][k - i - 1];
        } else if j < k {
          assert s[k] == s[j + 1..][k - j - 1];
        }
      }
      assert Separators(s, i, j);
    }
    if Accepts(s) {
      var i, j :| 0 <= i < |s| && 0 <= j < |s| && Separators(s, i, j);
      assert NonWhitespaceRun(s[..i]);
      assert NonWhitespaceRun(s[i + 1..j]);
      assert NonWhitespaceRun(s[j + 1..]);
    }
  }

  /** `emailRegex.test(email)`: a scan for the first '@' past index 0, then for a '.' after it. */
  method Test(s: string) returns (matched: bool)
    ensures matched <==> Accepts(s)
    ensures matched <==> Matches(s)
  {
    MatchesIffAccepts(s);
    var k := 0;
    while k < |s|
      invariant 0 <= k <= |s|
      invariant NoWhitespace(s[..k])
    {
      if IsWhitespace(s[k]) {
        return false;
      }
      assert s[..k + 1] == s[..k] + [s[k]];
      k := k + 1;
    }
    assert s[..k] == s;
    if |s| < 2 {
      return false;
    }
    var at := 1;
    while at < |s| && s[at] != '@'
      invariant 1 <= at <= |s|
      invariant forall m | 1 <= m < at :: s[m] != '@'
    {
      at := at + 1;
    }
    if at == |s| {
      return false;
    }
    var dot := at + 2;
    while dot < |s| - 1 && s[dot] != '.'
      invariant at + 2 <= dot
      invariant forall m | at + 2 <= m < dot && m < |s| - 1 :: s[m] != '.'
    {
      dot := dot + 1;
    }
    matched := dot < |s| - 1;
    if matched {
      assert Separators(s, at, dot);
    }
  }
}
