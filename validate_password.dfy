/**
 * The password policy middleware: an ordered list of five character-class
 * rules, checked one after the other; the first rule that fails decides the
 * 400 answer, and a password that passes them all goes on to the handler.
 */
module PasswordPolicy {
  import opened Wrappers
  import opened ResponseModel

  /** The five tests, in the order the policy lists them. */
  datatype Rule = MinLength | Uppercase | Lowercase | Digit | Special

  datatype Criterion = Criterion(rule: Rule, message: string)

  const PasswordCriteria: seq<Criterion> := [
    Criterion(MinLength, "Password must be at least 6 characters long"),
    Criterion(Uppercase, "Password must contain at least one uppercase letter"),
    Criterion(Lowercase, "Password must contain at least one lowercase letter"),
    Criterion(Digit, "Password must contain at least one number"),
    Criterion(Special, "Password must contain at least one special character")
  ]

  /** The characters a regular-expression `.` does not match. */
  predicate IsLineTerminator(c: char) {
    c == '\n' || c == '\r' || c == '\U{2028}' || c == '\U{2029}'
  }

  predicate IsUpper(c: char) { 'A' <= c <= 'Z' }
  predicate IsLower(c: char) { 'a' <= c <= 'z' }
  predicate IsAsciiDigit(c: char) { '0' <= c <= '9' }
  /** `[^A-Za-z0-9]`. */
  predicate IsSpecial(c: char) { !IsUpper(c) && !IsLower(c) && !IsAsciiDigit(c) }

  /** `n` characters starting at `i`, none of them a line terminator. */
  ghost predicate RunAt(s: string, i: int, n: nat) {
    0 <= i && i + n <= |s| && forall j :: i <= j < i + n ==> !IsLineTerminator(s[j])
  }

  /**
   * How the engine matches `.{n,}`: try the first start position, and if the
   * characters there do not form a run of `n`, move one position on.
   */
  predicate MatchesRun(s: string, n: nat)
    decreases |s|
  {
    |s| >= n && ((forall j :: 0 <= j < n ==> !IsLineTerminator(s[j])) || MatchesRun(s[1..], n))
  }

  lemma {:induction false} MatchesRunIffSomeRun(s: string, n: nat)
    ensures MatchesRun(s, n) <==> exists i :: RunAt(s, i, n)
    decreases |s|
  {
    if |s| >= n {
      if forall j :: 0 <= j < n ==> !IsLineTerminator(s[j]) {
        assert RunAt(s, 0, n);
      } else {
        assert !RunAt(s, 0, n);
        if |s| > 0 {
          MatchesRunIffSomeRun(s[1..], n);
          if MatchesRun(s[1..], n) {
            var i :| RunAt(s[1..], i, n);
            assert RunAt(s, i + 1, n);
          } else if exists i :: RunAt(s, i, n) {
            var i :| RunAt(s, i, n);
            assert i != 0;
            assert RunAt(s[1..], i - 1, n);
          }
        }
      }
    }
  }

  /** Whether `password` passes one rule. */
  predicate Passes(rule: Rule, password: string) {
    match rule
    case MinLength => MatchesRun(password, 6)
    case Uppercase => exists k :: 0 <= k < |password| && IsUpper(password[k])
    case Lowercase => exists k :: 0 <= k < |password| && IsLower(password[k])
    case Digit => exists k :: 0 <= k < |password| && IsAsciiDigit(password[k])
    case Special => exists k :: 0 <= k < |password| && IsSpecial(password[k])
  }

  /** The index of the first criterion from `from` on that `password` fails, if any. */
  function FirstFailure(criteria: seq<Criterion>, password: string, from: nat): (r: Option<nat>)
    requires from <= |criteria|
    ensures r.Some? ==> from <= r.value < |criteria| && !Passes(criteria[r.value].rule, password)
    ensures r.Some? ==> forall j :: from <= j < r.value ==> Passes(criteria[j].rule, password)
    ensures r.None? <==> forall j :: from <= j < |criteria| ==> Passes(criteria[j].rule, password)
    decreases |criteria| - from
  {
    if from == |criteria| then None
    else if !Passes(criteria[from].rule, password) then Some(from)
    else FirstFailure(criteria, password, from + 1)
  }

  /**
   * `RegExp.prototype.test` turns a missing body field into the text
   * "undefined" before matching.
   */
  function AsTested(field: Option<string>): string {
    field.GetOr("undefined")
  }

  /** Criterion `i` is the first one `password` fails. */
  predicate FirstFailingAt(i: int, password: string) {
    && 0 <= i < |PasswordCriteria|
    && !Passes(PasswordCriteria[i].rule, password)
    && forall j :: 0 <= j < i ==> Passes(PasswordCriteria[j].rule, password)
  }

  /** The shared loop of both middlewares over the value they pick from the body. */
  function CheckPassword(field: Option<string>): (r: MiddlewareResult)
    ensures var pw := AsTested(field);
      (r.CallNext? <==> forall j :: 0 <= j < |PasswordCriteria| ==> Passes(PasswordCriteria[j].rule, pw))
    ensures var pw := AsTested(field);
      r.Respond? ==> exists i :: FirstFailingAt(i, pw) &&
                                r == Respond(400, CreateResponse(false, 400, PasswordCriteria[i].message))
  {
    match FirstFailure(PasswordCriteria, AsTested(field), 0)
    case None => CallNext
    case Some(i) => Respond(400, CreateResponse(false, 400, PasswordCriteria[i].message))
  }

  /** The request body fields the two middlewares read. */
  datatype PasswordBody = PasswordBody(newPassword: Option<string>, password: Option<string>)

  /** `validatePassword`: checks `body.newPassword`. */
  function ValidatePassword(body: PasswordBody): (r: MiddlewareResult)
    ensures r.CallNext? <==>
              forall j :: 0 <= j < |PasswordCriteria| ==> Passes(PasswordCriteria[j].rule, AsTested(body.newPassword))
    ensures r.Respond? ==>
              exists i :: FirstFailingAt(i, AsTested(body.newPassword)) &&
                          r == Respond(400, CreateResponse(false, 400, PasswordCriteria[i].message))
  {
    CheckPassword(body.newPassword)
  }

  /** `validateResetPassword`: checks `body.password`. */
  function ValidateResetPassword(body: PasswordBody): (r: MiddlewareResult)
    ensures r.CallNext? <==>
              forall j :: 0 <= j < |PasswordCriteria| ==> Passes(PasswordCriteria[j].rule, AsTested(body.password))
    ensures r.Respond? ==>
              exists i :: FirstFailingAt(i, AsTested(body.password)) &&
                          r == Respond(400, CreateResponse(false, 400, PasswordCriteria[i].message))
  {
    CheckPassword(body.password)
  }

  /** The policy in one sentence: accepted iff all five classes are present. */
  lemma AcceptedIffAllFive(password: string)
    ensures CheckPassword(Some(password)).CallNext? <==>
      && (exists i :: RunAt(password, i, 6))
      && (exists k :: 0 <= k < |password| && IsUpper(password[k]))
      && (exists k :: 0 <= k < |password| && IsLower(password[k]))
      && (exists k :: 0 <= k < |password| && IsAsciiDigit(password[k]))
      && (exists k :: 0 <= k < |password| && IsSpecial(password[k]))
  {
    MatchesRunIffSomeRun(password, 6);
    CriteriaRules();
  }

  /** Given the same text, both middlewares reach the same verdict with the same message. */
  lemma BothMiddlewaresAgree(text: string, other: Option<string>)
    ensures ValidatePassword(PasswordBody(Some(text), other))
         == ValidateResetPassword(PasswordBody(other, Some(text)))
  {
  }

  /** The rules of the five criteria, in order. */
  lemma CriteriaRules()
    ensures PasswordCriteria[0].rule == MinLength && PasswordCriteria[1].rule == Uppercase
    ensures PasswordCriteria[2].rule == Lowercase && PasswordCriteria[3].rule == Digit
    ensures PasswordCriteria[4].rule == Special
  {
  }

  /** A text that is long enough but has no uppercase letter fails on the uppercase rule. */
  lemma {:induction false} FailsOnUppercase(pw: string)
    requires MatchesRun(pw, 6) && forall k :: 0 <= k < |pw| ==> !IsUpper(pw[k])
    ensures CheckPassword(Some(pw))
         == Respond(400, CreateResponse(false, 400, "Password must contain at least one uppercase letter"))
  {
    CriteriaRules();
    assert Passes(PasswordCriteria[0].rule, pw);
    assert !Passes(PasswordCriteria[1].rule, pw);
    assert FirstFailure(PasswordCriteria, pw, 1) == Some(1);
    assert FirstFailure(PasswordCriteria, pw, 0) == Some(1);
    assert AsTested(Some(pw)) == pw;
  }

  /** "abc123" fails on the uppercase rule. */
  lemma WeakPasswordExample()
    ensures CheckPassword(Some("abc123"))
         == Respond(400, CreateResponse(false, 400, "Password must contain at least one uppercase letter"))
  {
    var weak := "abc123";
    assert forall j :: 0 <= j < 6 ==> !IsLineTerminator(weak[j]);
    FailsOnUppercase(weak);
  }

  /** "Abcdef1!" passes all five. */
  lemma StrongPasswordExample()
    ensures CheckPassword(Some("Abcdef1!")) == CallNext
  {
    var strong := "Abcdef1!";
    CriteriaRules();
    assert forall j :: 0 <= j < 6 ==> !IsLineTerminator(strong[j]);
    assert Passes(MinLength, strong);
    assert IsUpper(strong[0]) && IsLower(strong[1]) && IsAsciiDigit(strong[6]) && IsSpecial(strong[7]);
    assert forall j :: 0 <= j < |PasswordCriteria| ==> Passes(PasswordCriteria[j].rule, strong);
  }

  /** A missing field is tested as "undefined": long enough, but it has no uppercase letter. */
  lemma MissingFieldFailsOnUppercase()
    ensures CheckPassword(None)
         == Respond(400, CreateResponse(false, 400, "Password must contain at least one uppercase letter"))
  {
    var u := "undefined";
    assert forall j :: 0 <= j < 6 ==> !IsLineTerminator(u[j]);
    FailsOnUppercase(u);
  }
}
