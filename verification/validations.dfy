/**
 * The form schemas of the login and signup pages: which inputs they accept and
 * which issues they report, field by field. The regular expressions are written
 * out as predicates over characters; zod's own e-mail check is a parameter.
 */
module Validations {
  import opened Wrappers
  import opened Text

  /** One reported problem: the form field it belongs to and its message. */
  datatype Issue = Issue(path: string, message: string)

  /** The issue a failed check reports, or nothing. */
  function Check(failed: bool, path: string, message: string): (r: seq<Issue>)
    ensures r == [] <==> !failed
    ensures |r| <= 1 && forall k | 0 <= k < |r| :: r[k] == Issue(path, message)
  {
    if failed then [Issue(path, message)] else []
  }

  /** `\d` of a regular expression without the `u` flag. */
  predicate IsDigit(c: char) {
    '0' <= c <= '9'
  }

  // ---------------------------------------------------------------------------
  // Member ID: `^INS\d{7}$`

  predicate IsMemberId(s: string) {
    |s| == 10 && s[..3] == "INS" && forall k | 3 <= k < 10 :: IsDigit(s[k])
  }

  // ---------------------------------------------------------------------------
  // E-mail shape: `^[^\s@]+@[^\s@]+\.[^\s@]+$`

  /** A character of the class `[^\s@]`. */
  predicate Plain(c: char) {
    !IsSpace(c) && c != '@'
  }

  predicate AllPlain(t: string) {
    forall k | 0 <= k < |t| :: Plain(t[k])
  }

  /**
   * One way the pattern matches: `s[..i]`, `s[i + 1..j]` and `s[j + 1..]` are
   * the three plain runs, `s[i]` the `@` and `s[j]` the dot.
   */
  predicate EmailSplit(s: string, i: int, j: int) {
    && 0 < i && i + 1 < j && j + 1 < |s|
    && s[i] == '@' && s[j] == '.'
    && AllPlain(s[..i]) && AllPlain(s[i + 1..j]) && AllPlain(s[j + 1..])
  }

  /** The pattern matches when some split exists. */
  ghost predicate EmailMatches(s: string) {
    exists i, j :: EmailSplit(s, i, j)
  }

  /** Position of the first `c` in `s`. */
  function IndexOf(s: string, c: char): (r: Option<nat>)
    ensures r.Some? ==> r.value < |s| && s[r.value] == c
    ensures r.Some? ==> forall k | 0 <= k < r.value :: s[k] != c
    ensures r.None? ==> forall k | 0 <= k < |s| :: s[k] != c
  {
    if |s| == 0 then None
    else if s[0] == c then Some(0)
    else
      match IndexOf(s[1..], c)
      case None => None
      case Some(k) => Some(k + 1)
  }

  /** A dot somewhere strictly inside `t`. */
  predicate HasInnerDot(t: string) {
    exists d | 1 <= d < |t| - 1 :: t[d] == '.'
  }

  /** The e-mail pattern as a check: no whitespace, one `@` past the start, an inner dot after it. */
  predicate IsEmailShaped(s: string) {
    && (forall k | 0 <= k < |s| :: !IsSpace(s[k]))
    && match IndexOf(s, '@')
       case None => false
       case Some(i) =>
         && 0 < i
         && (forall k | i < k < |s| :: s[k] != '@')
         && HasInnerDot(s[i + 1..])
  }

  /** The check accepts exactly the strings the regular expression matches. */
  lemma EmailShapeIffMatches(s: string)
    ensures IsEmailShaped(s) <==> EmailMatches(s)
  {
    if IsEmailShaped(s) {
      ShapedEmailMatches(s);
    }
    if EmailMatches(s) {
      MatchingEmailShaped(s);
    }
  }

  lemma ShapedEmailMatches(s: string)
    requires IsEmailShaped(s)
    ensures EmailMatches(s)
  {
    var i := IndexOf(s, '@').value;
    var t := s[i + 1..];
    var d :| 1 <= d < |t| - 1 && t[d] == '.';
    var j := i + 1 + d;
    assert s[j] == '.';
    assert AllPlain(s[..i]) by {
      forall k | 0 <= k < i ensures Plain(s[..i][k]) {
        assert s[..i][k] == s[k];
      }
    }
    var mid, tail := s[i + 1..j], s[j + 1..];
    assert AllPlain(mid) by {
      forall k | 0 <= k < |mid| ensures Plain(mid[k]) {
        assert mid[k] == s[i + 1 + k];
      }
    }
    assert AllPlain(tail) by {
      forall k | 0 <= k < |tail| ensures Plain(tail[k]) {
        assert tail[k] == s[j + 1 + k];
      }
    }
    assert EmailSplit(s, i, j);
  }

  lemma MatchingEmailShaped(s: string)
    requires EmailMatches(s)
    ensures IsEmailShaped(s)
  {
    var i, j :| EmailSplit(s, i, j);
    SplitPlain(s, i, j);
    assert forall k | 0 <= k < |s| :: !IsSpace(s[k]);
    assert IndexOf(s, '@') == Some(i);
    assert HasInnerDot(s[i + 1..]) by {
      assert s[i + 1..][j - i - 1] == '.';
    }
  }

  /** Outside the `@` and the dot, every character of a split is plain. */
  lemma SplitPlain(s: string, i: int, j: int)
    requires EmailSplit(s, i, j)
    ensures forall k | 0 <= k < |s| && k != i && k != j :: Plain(s[k])
  {
    forall k | 0 <= k < |s| && k != i && k != j
      ensures Plain(s[k])
    {
      if k < i {
        assert s[k] == s[..i][k];
      } else if k < j {
        assert s[k] == s[i + 1..j][k - i - 1];
      } else {
        assert s[k] == s[j + 1..][k - j - 1];
      }
    }
  }

  /** The refinement of the login form's first field. */
  predicate AcceptsMemberIdOrEmail(value: string) {
    IsMemberId(value) || IsEmailShaped(value)
  }

  /** A member ID never looks like an e-mail address, so the two alternatives never overlap. */
  lemma MemberIdIsNotEmail(s: string)
    requires IsMemberId(s)
    ensures !IsEmailShaped(s)
  {
    assert s[..3][0] == 'I' && s[..3][1] == 'N' && s[..3][2] == 'S';
    assert forall k | 0 <= k < |s| :: s[k] != '@';
  }

  lemma MemberIdExamples()
    ensures IsMemberId("INS1234567")
    ensures !IsMemberId("ins1234567")
    ensures !IsMemberId("INS123456")
  {
    assert "ins1234567"[..3] != "INS" by {
      assert "ins1234567"[..3][0] == 'i';
    }
  }

  // ---------------------------------------------------------------------------
  // The login schema

  const MemberIdRequired := "Member ID or Email is required"
  const MemberIdInvalid := "Enter a valid Member ID (INS1234567) or email address"
  const LoginPasswordShort := "Password must be at least 6 characters"

  /** Every string check runs; the refinement runs even after a failed length check. */
  function LoginIssues(memberId: string, password: string): (r: seq<Issue>)
    ensures Issue("memberId", MemberIdRequired) in r <==> memberId == ""
    ensures Issue("memberId", MemberIdInvalid) in r <==> !AcceptsMemberIdOrEmail(memberId)
    ensures Issue("password", LoginPasswordShort) in r <==> |password| < 6
    ensures forall k | 0 <= k < |r| :: r[k].path in {"memberId", "password"}
  {
    Check(|memberId| < 1, "memberId", MemberIdRequired)
    + Check(!AcceptsMemberIdOrEmail(memberId), "memberId", MemberIdInvalid)
    + Check(|password| < 6, "password", LoginPasswordShort)
  }

  predicate LoginAccepted(memberId: string, password: string) {
    LoginIssues(memberId, password) == []
  }

  /** Login is accepted iff the first field is a member ID or an e-mail and the password has six characters. */
  lemma LoginAcceptedIff(memberId: string, password: string)
    ensures LoginAccepted(memberId, password) <==>
      (IsMemberId(memberId) || EmailMatches(memberId)) && |password| >= 6
  {
    EmailShapeIffMatches(memberId);
    if memberId == "" {
      assert Issue("memberId", MemberIdRequired) in LoginIssues(memberId, password);
    }
    if !AcceptsMemberIdOrEmail(memberId) {
      assert Issue("memberId", MemberIdInvalid) in LoginIssues(memberId, password);
    }
    if |password| < 6 {
      assert Issue("password", LoginPasswordShort) in LoginIssues(memberId, password);
    }
  }

  /** An empty first field gets both of its messages. */
  lemma EmptyMemberIdTwoIssues(password: string)
    ensures |LoginIssues("", password)| >= 2
    ensures LoginIssues("", password)[..2] == [Issue("memberId", MemberIdRequired), Issue("memberId", MemberIdInvalid)]
  {
    assert !IsEmailShaped("");
  }

  // ---------------------------------------------------------------------------
  // The signup schema

  datatype Signup = Signup(
    firstName: string, lastName: string, email: string, phone: string,
    dateOfBirth: string, password: string, confirmPassword: string)

  predicate HasCharIn(s: string, lo: char, hi: char) {
    exists k | 0 <= k < |s| :: lo <= s[k] <= hi
  }

  /** The password rules: eight characters with an upper-case letter, a lower-case letter and a digit. */
  predicate StrongPassword(p: string) {
    |p| >= 8 && HasCharIn(p, 'A', 'Z') && HasCharIn(p, 'a', 'z') && HasCharIn(p, '0', '9')
  }

  /** Issues of a name field limited to 1..50 characters. */
  function NameIssues(path: string, field: string, s: string): (r: seq<Issue>)
    ensures r == [] <==> 1 <= |s| <= 50
    ensures forall k | 0 <= k < |r| :: r[k].path == path
  {
    Check(|s| < 1, path, field + " is required")
    + Check(|s| > 50, path, field + " is too long")
  }

  function PasswordIssues(p: string): (r: seq<Issue>)
    ensures r == [] <==> StrongPassword(p)
    ensures forall k | 0 <= k < |r| :: r[k].path == "password"
    ensures Off(r, "confirmPassword")
  {
    Check(|p| < 8, "password", "Password must be at least 8 characters")
    + Check(!HasCharIn(p, 'A', 'Z'), "password", "Password must contain at least one uppercase letter")
    + Check(!HasCharIn(p, 'a', 'z'), "password", "Password must contain at least one lowercase letter")
    + Check(!HasCharIn(p, '0', '9'), "password", "Password must contain at least one number")
  }

  /** No issue of `r` is reported on `path`. */
  predicate Off(r: seq<Issue>, path: string) {
    forall k | 0 <= k < |r| :: r[k].path != path
  }

  lemma OffConcat(a: seq<Issue>, b: seq<Issue>, path: string)
    requires Off(a, path) && Off(b, path)
    ensures Off(a + b, path)
  {
    assert forall k | |a| <= k < |a + b| :: (a + b)[k] == b[k - |a|];
  }

  /** The field rules, with zod's `.email()` check as the parameter `isEmail`. */
  function FieldIssues(f: Signup, isEmail: string -> bool): (r: seq<Issue>)
    ensures r == [] <==>
      && 1 <= |f.firstName| <= 50 && 1 <= |f.lastName| <= 50 && isEmail(f.email)
      && |f.phone| >= 10 && |f.dateOfBirth| >= 1 && StrongPassword(f.password)
    ensures Off(r, "confirmPassword")
  {
    var names := NamesIssues(f);
    var contact := ContactIssues(f, isEmail);
    var password := PasswordIssues(f.password);
    OffConcat(names, contact, "confirmPassword");
    OffConcat(names + contact, password, "confirmPassword");
    names + contact + password
  }

  /** The rules of the two name fields, in order. */
  function NamesIssues(f: Signup): (r: seq<Issue>)
    ensures r == [] <==> 1 <= |f.firstName| <= 50 && 1 <= |f.lastName| <= 50
    ensures Off(r, "confirmPassword")
  {
    var first := NameIssues("firstName", "First name", f.firstName);
    var last := NameIssues("lastName", "Last name", f.lastName);
    OffConcat(first, last, "confirmPassword");
    first + last
  }

  /** The rules of the e-mail, phone and date-of-birth fields, in order. */
  function ContactIssues(f: Signup, isEmail: string -> bool): (r: seq<Issue>)
    ensures r == [] <==> isEmail(f.email) && |f.phone| >= 10 && |f.dateOfBirth| >= 1
    ensures Off(r, "confirmPassword")
  {
    var email := Check(!isEmail(f.email), "email", "Please enter a valid email address");
    var phone := Check(|f.phone| < 10, "phone", "Please enter a valid phone number");
    var birth := Check(|f.dateOfBirth| < 1, "dateOfBirth", "Date of birth is required");
    OffConcat(email, phone, "confirmPassword");
    OffConcat(email + phone, birth, "confirmPassword");
    email + phone + birth
  }

  const Mismatch := Issue("confirmPassword", "Passwords don't match")

  /** The field issues, then the object-level refinement comparing the two passwords. */
  function SignupIssues(f: Signup, isEmail: string -> bool): (r: seq<Issue>)
    ensures Mismatch in r <==> f.password != f.confirmPassword
    ensures r == [] <==> FieldIssues(f, isEmail) == [] && f.password == f.confirmPassword
  {
    var fields := FieldIssues(f, isEmail);
    assert Mismatch !in fields;
    fields + (if f.password != f.confirmPassword then [Mismatch] else [])
  }

  /** When every field rule passes, the only possible issue is the mismatch, on `confirmPassword`. */
  lemma SignupAcceptedIff(f: Signup, isEmail: string -> bool)
    requires FieldIssues(f, isEmail) == []
    ensures SignupIssues(f, isEmail) == [] <==> f.password == f.confirmPassword
    ensures f.password != f.confirmPassword ==> SignupIssues(f, isEmail) == [Mismatch]
  {
  }

  lemma PasswordExamples()
    ensures StrongPassword("Passw0rd")
    ensures !StrongPassword("password1")
  {
    assert "Passw0rd"[0] == 'P' && "Passw0rd"[1] == 'a' && "Passw0rd"[5] == '0';
    assert !HasCharIn("password1", 'A', 'Z');
  }
}
