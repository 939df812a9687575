/** The email format check shared by the client login (lib/store.ts) and the
    login endpoint (app/api/auth/login/route.ts): both test the address
    against /^[^\s@]+@[^\s@]+\.[^\s@]+$/ and derive the display name with
    `email.split('@')[0]`. */
module EmailFormat {
  import opened JsValues

  /** The characters `\s` matches in a JavaScript regular expression. */
  predicate IsJsWhitespace(c: char) {
    || c == ' ' || c == '\t' || c == '\n' || c == '\r' || c == '\U{000B}' || c == '\U{000C}'
    || c == '\U{00A0}' || c == '\U{1680}' || ('\U{2000}' <= c <= '\U{200A}')
    || c == '\U{2028}' || c == '\U{2029}' || c == '\U{202F}' || c == '\U{205F}'
    || c == '\U{3000}' || c == '\U{FEFF}'
  }

  /** The class `[^\s@]`. */
  predicate IsAtomChar(c: char) {
    !IsJsWhitespace(c) && c != '@'
  }

  predicate AllAtomChars(t: string) {
    forall k | 0 <= k < |t| :: IsAtomChar(t[k])
  }

  /** What the pattern /^[^\s@]+@[^\s@]+\.[^\s@]+$/ accepts, read position by
      position: an `@` at `at` after a non-empty run, a `.` at `dot` with a
      non-empty run on either side, and every character except that `@` in
      `[^\s@]` (a `.` is in that class). */
  ghost predicate MatchesEmailPattern(s: string) {
    exists at: nat, dot: nat | 0 < at && at + 1 < dot && dot + 1 < |s| ::
      && s[at] == '@'
      && s[dot] == '.'
      && forall k | 0 <= k < |s| && k != at :: IsAtomChar(s[k])
  }

  /** Position of the first `@`, as `s.indexOf('@')` with -1 read as None. */
  function IndexOfAt(s: string): (r: Option<nat>)
    ensures r.Some? ==> r.value < |s| && s[r.value] == '@' && '@' !in s[..r.value]
    ensures r.None? ==> '@' !in s
  {
    if s == [] then None
    else if s[0] == '@' then Some(0)
    else
      match IndexOfAt(s[1..])
      case None => None
      case Some(i) => assert s[..i + 1] == [s[0]] + s[1..][..i]; Some(i + 1)
  }

  /** `[^\s@]+\.[^\s@]+`: what may follow the `@`. */
  predicate IsDomainPart(d: string) {
    AllAtomChars(d) && exists j | 0 < j < |d| - 1 :: d[j] == '.'
  }

  /** The email check as the code can run it: split at the first `@`, then
      check both sides. */
  predicate IsValidEmail(s: string) {
    match IndexOfAt(s)
    case None => false
    case Some(at) => 0 < at && AllAtomChars(s[..at]) && IsDomainPart(s[at + 1..])
  }

  /** The split check accepts exactly the addresses the pattern accepts. */
  lemma ValidEmailIsPattern(s: string)
    ensures IsValidEmail(s) <==> MatchesEmailPattern(s)
  {
    if IsValidEmail(s) {
      var at := IndexOfAt(s).value;
      var d := s[at + 1..];
      var j :| 0 < j < |d| - 1 && d[j] == '.';
      assert s[at + 1 + j] == '.';
      forall k | 0 <= k < |s| && k != at ensures IsAtomChar(s[k]) {
        if k < at {
          assert s[k] == s[..at][k];
        } else {
          assert s[k] == d[k - at - 1];
        }
      }
    }
    if MatchesEmailPattern(s) {
      var at: nat, dot: nat :| 0 < at && at + 1 < dot && dot + 1 < |s| && s[at] == '@' && s[dot] == '.'
        && forall k | 0 <= k < |s| && k != at :: IsAtomChar(s[k]);
      var first := IndexOfAt(s);
      assert first.Some?;
      assert first.value == at;
      var d := s[at + 1..];
      assert d[dot - at - 1] == '.';
      forall k | 0 <= k < |d| ensures IsAtomChar(d[k]) {
        assert d[k] == s[at + 1 + k];
      }
      forall k | 0 <= k < at ensures IsAtomChar(s[..at][k]) {
        assert s[..at][k] == s[k];
      }
    }
  }

  /** `s.split('@')[0]`: the text before the first `@`, or all of `s` when it
      has none. */
  function LocalPart(s: string): (name: string)
    ensures name <= s && '@' !in name
    ensures |name| < |s| ==> s[|name|] == '@'
  {
    match IndexOfAt(s)
    case None => s
    case Some(at) => s[..at]
  }

  /** On an address the pattern accepts, the display name is the non-empty
      part before the only `@`, and what follows it is a well-formed domain. */
  lemma LocalPartOfValidEmail(s: string)
    requires MatchesEmailPattern(s)
    ensures 0 < |LocalPart(s)| < |s| - 1
    ensures s == LocalPart(s) + "@" + s[|LocalPart(s)| + 1..]
    ensures AllAtomChars(LocalPart(s)) && IsDomainPart(s[|LocalPart(s)| + 1..])
    ensures '@' !in s[|LocalPart(s)| + 1..]
  {
    ValidEmailIsPattern(s);
    var at := IndexOfAt(s).value;
    assert LocalPart(s) == s[..at];
    var d := s[at + 1..];
    assert s == s[..at] + "@" + d;
    forall k | 0 <= k < |d| ensures d[k] != '@' {
      assert IsAtomChar(d[k]);
    }
  }

  /** A value that is not a string or an array either makes the string
      coercion `regex.test` applies throw, or becomes a text with no `@`, so it
      never passes. */
  lemma {:induction false} CoercedNonTextNeverValid(v: JsValue)
    requires !v.JsString? && !v.JsArray?
    ensures ToJsString(v).Some? ==> !IsValidEmail(ToJsString(v).value)
  {
    if ToJsString(v).Some? {
      var t := ToJsString(v).value;
      match v {
        case JsNumber(n) =>
          if n < 0 {
            DigitsHaveNoAt(-n);
            assert t == "-" + DecimalDigits(-n);
          } else {
            DigitsHaveNoAt(n);
          }
        case _ =>
      }
      assert '@' !in t;
    }
  }
}
