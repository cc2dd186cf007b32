/** The client-side validation helpers of the site's script: the email and phone
    patterns, the password rules with their ordered error list, the 0..5 password
    strength score and the Weak/Medium/Strong indicator shown while typing. */
module Validators {
  import opened Wrappers
  import opened JsText
  import Checks

  // ---------------------------------------------------------------- email

  /** `[^\s@]`: any character but whitespace and `@`. */
  predicate EmailChar(c: char) {
    !IsWhitespace(c) && c != '@'
  }

  /** What `/^[^\s@]+@[^\s@]+\.[^\s@]+$/` accepts, read off the pattern: the string
      splits as A `@` B `.` C with A, B and C non-empty runs of `[^\s@]`
      (the `.` itself is such a character too). */
  ghost predicate MatchesEmailPattern(e: string) {
    exists at, dot ::
      && 1 <= at && at + 2 <= dot && dot + 2 <= |e|
      && e[at] == '@' && e[dot] == '.'
      && forall k :: 0 <= k < |e| && k != at ==> EmailChar(e[k])
  }

  /** `validateEmail`, character by character: no whitespace anywhere, a first `@`
      with something before it and no other `@` after it, and a `.` in the part
      after the `@` with at least one character on each side. */
  function ValidateEmail(email: string): bool {
    match IndexOf(email, '@')
    case None => false
    case Some(at) =>
      var domain := email[at + 1..];
      && at > 0
      && (forall k :: 0 <= k < |email| ==> !IsWhitespace(email[k]))
      && '@' !in domain
      && (exists d :: 0 < d < |domain| - 1 && domain[d] == '.')
  }

  /** The character-level check accepts exactly what the regular expression matches. */
  lemma ValidateEmailMatchesPattern(email: string)
    ensures ValidateEmail(email) <==> MatchesEmailPattern(email)
  {
    if ValidateEmail(email) {
      var at := IndexOf(email, '@').value;
      var domain := email[at + 1..];
      var d :| 0 < d < |domain| - 1 && domain[d] == '.';
      var dot := at + 1 + d;
      assert email[dot] == '.';
      forall k | 0 <= k < |email| && k != at
        ensures EmailChar(email[k])
      {
        if k < at {
          assert email[k] == email[..at][k];
        } else {
          assert email[k] == domain[k - at - 1];
        }
      }
      assert MatchesEmailPattern(email);
    }
    if MatchesEmailPattern(email) {
      var at, dot :|
        && 1 <= at && at + 2 <= dot && dot + 2 <= |email|
        && email[at] == '@' && email[dot] == '.'
        && forall k :: 0 <= k < |email| && k != at ==> EmailChar(email[k]);
      assert email[at] in email;
      var i := IndexOf(email, '@').value;
      assert i == at;
      var domain := email[at + 1..];
      assert domain[dot - at - 1] == '.';
      assert '@' !in domain by {
        forall j | 0 <= j < |domain| ensures domain[j] != '@' {
          assert domain[j] == email[at + 1 + j];
        }
      }
    }
  }

  // ---------------------------------------------------------------- phone

  /** `[\d\s\-\+\(\)]`: an ASCII digit, whitespace, `-`, `+`, `(` or `)`. */
  predicate PhoneChar(c: char) {
    ('0' <= c <= '9') || IsWhitespace(c) || c == '-' || c == '+' || c == '(' || c == ')'
  }

  /** What `/^[\d\s\-\+\(\)]+$/` accepts, read off the pattern: one class
      character, then either the end of the string or another match. */
  predicate MatchesPhonePattern(s: string) {
    |s| >= 1 && PhoneChar(s[0]) && (|s| == 1 || MatchesPhonePattern(s[1..]))
  }

  /** `validatePhone`: at least 10 UTF-16 code units, and the pattern matches. */
  function ValidatePhone(phone: string): bool {
    JsLength(phone) >= 10 && MatchesPhonePattern(phone)
  }

  lemma {:induction false} PhonePatternIsAllPhoneChars(s: string)
    ensures MatchesPhonePattern(s) <==> |s| >= 1 && forall k :: 0 <= k < |s| ==> PhoneChar(s[k])
  {
    if |s| > 1 {
      PhonePatternIsAllPhoneChars(s[1..]);
      assert forall k :: 1 <= k < |s| ==> s[k] == s[1..][k - 1];
    }
  }

  /** A phone number is valid exactly when it has at least 10 characters and every
      one of them is a digit, whitespace, `-`, `+`, `(` or `)`. */
  lemma ValidatePhoneCharacterization(phone: string)
    ensures ValidatePhone(phone) <==>
      |phone| >= 10 && forall k :: 0 <= k < |phone| ==> PhoneChar(phone[k])
  {
    PhonePatternIsAllPhoneChars(phone);
    if forall k :: 0 <= k < |phone| ==> PhoneChar(phone[k]) {
      assert forall k :: 0 <= k < |phone| ==> IsBmp(phone[k]) by {
        forall k | 0 <= k < |phone| ensures IsBmp(phone[k]) {
          assert PhoneChar(phone[k]);
        }
      }
    }
  }

  // ---------------------------------------------------------------- password rules

  predicate IsAsciiLower(c: char) { 'a' <= c <= 'z' }
  predicate IsAsciiUpper(c: char) { 'A' <= c <= 'Z' }
  predicate IsAsciiDigit(c: char) { '0' <= c <= '9' }

  /** `/[a-z]/.test(s)` */
  predicate HasLower(s: string) { exists k :: 0 <= k < |s| && IsAsciiLower(s[k]) }
  /** `/[A-Z]/.test(s)` */
  predicate HasUpper(s: string) { exists k :: 0 <= k < |s| && IsAsciiUpper(s[k]) }
  /** `/\d/.test(s)` */
  predicate HasDigit(s: string) { exists k :: 0 <= k < |s| && IsAsciiDigit(s[k]) }
  /** `/[^a-zA-Z\d]/.test(s)` */
  predicate HasSymbol(s: string) {
    exists k :: 0 <= k < |s| && !IsAsciiLower(s[k]) && !IsAsciiUpper(s[k]) && !IsAsciiDigit(s[k])
  }

  /** The four rules `validatePassword` checks, in the order it checks them. */
  datatype PasswordRule = MinLength | Lowercase | Uppercase | Digit

  const PasswordRules: seq<PasswordRule> := [MinLength, Lowercase, Uppercase, Digit]

  predicate RuleHolds(rule: PasswordRule, password: string) {
    match rule
    case MinLength => JsLength(password) >= 8
    case Lowercase => HasLower(password)
    case Uppercase => HasUpper(password)
    case Digit => HasDigit(password)
  }

  function RuleMessage(rule: PasswordRule): string {
    match rule
    case MinLength => "Password must be at least 8 characters long"
    case Lowercase => "Password must contain at least one lowercase letter"
    case Uppercase => "Password must contain at least one uppercase letter"
    case Digit => "Password must contain at least one number"
  }

  /** The message of one rule if it fails, as a list of zero or one messages. */
  function Violation(rule: PasswordRule, password: string): seq<string> {
    if RuleHolds(rule, password) then [] else [RuleMessage(rule)]
  }

  /** The messages of the rules that fail, in the order of `rules`. */
  function Violations(rules: seq<PasswordRule>, password: string): seq<string> {
    if rules == [] then [] else Violation(rules[0], password) + Violations(rules[1..], password)
  }

  /** The error list `validatePassword` builds. */
  function PasswordErrors(password: string): seq<string> {
    Violations(PasswordRules, password)
  }

  lemma RuleMessageInjective(a: PasswordRule, b: PasswordRule)
    ensures RuleMessage(a) == RuleMessage(b) ==> a == b
  {
  }

  /** At most one message per rule, none at all exactly when every rule holds,
      and the first message belongs to the first failing rule. */
  lemma {:induction false} ViolationsSpec(rules: seq<PasswordRule>, password: string)
    ensures |Violations(rules, password)| <= |rules|
    ensures Violations(rules, password) == [] <==>
      forall k :: 0 <= k < |rules| ==> RuleHolds(rules[k], password)
    ensures Violations(rules, password) != [] ==>
      var first := Checks.FirstFailing(rules, r => !RuleHolds(r, password));
      first.Some? && Violations(rules, password)[0] == RuleMessage(rules[first.value])
  {
    if rules != [] {
      ViolationsSpec(rules[1..], password);
      var head := Violation(rules[0], password);
      var tail := Violations(rules[1..], password);
      assert Violations(rules, password) == head + tail;
      if head + tail == [] {
        forall k | 0 <= k < |rules| ensures RuleHolds(rules[k], password) {
          if k > 0 { assert rules[k] == rules[1..][k - 1]; }
        }
      }
    }
  }

  /** A rule's message is in the list exactly when the rule fails. */
  lemma {:induction false} ViolationsNameFailingRules(rules: seq<PasswordRule>, password: string)
    ensures forall r :: r in rules ==>
      (RuleMessage(r) in Violations(rules, password) <==> !RuleHolds(r, password))
  {
    if rules != [] {
      ViolationsNameFailingRules(rules[1..], password);
      var head := Violation(rules[0], password);
      var tail := Violations(rules[1..], password);
      assert Violations(rules, password) == head + tail;
      forall r | r in rules
        ensures RuleMessage(r) in head + tail <==> !RuleHolds(r, password)
      {
        if RuleMessage(r) in head + tail && RuleHolds(r, password) {
          if RuleMessage(r) in head {
            RuleMessageInjective(r, rules[0]);
          } else {
            assert r !in rules[1..];
            assert r == rules[0];
            var m :| m in tail && m == RuleMessage(r);
            MessageComesFromRule(rules[1..], password, m);
            var q :| q in rules[1..] && !RuleHolds(q, password) && RuleMessage(q) == m;
            RuleMessageInjective(r, q);
          }
        }
      }
    }
  }

  lemma {:induction false} MessageComesFromRule(rules: seq<PasswordRule>, password: string, m: string)
    requires m in Violations(rules, password)
    ensures exists r :: r in rules && !RuleHolds(r, password) && RuleMessage(r) == m
  {
    if m !in Violation(rules[0], password) {
      MessageComesFromRule(rules[1..], password, m);
      var r :| r in rules[1..] && !RuleHolds(r, password) && RuleMessage(r) == m;
      assert r in rules;
    }
  }

  /** `validatePassword`: pushes the message of each failing rule, in order, and
      reports the password valid exactly when no message was pushed. */
  method ValidatePassword(password: string) returns (isValid: bool, errors: seq<string>)
    ensures errors == PasswordErrors(password)
    ensures isValid <==> errors == []
    ensures isValid <==> forall r :: r in PasswordRules ==> RuleHolds(r, password)
    ensures |errors| <= 4
  {
    errors := [];
    if JsLength(password) < 8 {
      errors := errors + [RuleMessage(MinLength)];
    }
    assert errors == Violation(MinLength, password);
    if !HasLower(password) {
      errors := errors + [RuleMessage(Lowercase)];
    }
    assert errors == Violation(MinLength, password) + Violation(Lowercase, password);
    if !HasUpper(password) {
      errors := errors + [RuleMessage(Uppercase)];
    }
    assert errors == Violation(MinLength, password) + Violation(Lowercase, password)
      + Violation(Uppercase, password);
    if !HasDigit(password) {
      errors := errors + [RuleMessage(Digit)];
    }
    isValid := |errors| == 0;
    PasswordErrorsInOrder(password);
    AllRulesHoldIffNoErrors(password);
  }

  /** No error is reported exactly when every rule holds; at most four are. */
  lemma AllRulesHoldIffNoErrors(password: string)
    ensures PasswordErrors(password) == [] <==> forall r :: r in PasswordRules ==> RuleHolds(r, password)
    ensures |PasswordErrors(password)| <= 4
  {
    ViolationsSpec(PasswordRules, password);
    var rs := PasswordRules;
    assert forall r :: r in rs <==> r == rs[0] || r == rs[1] || r == rs[2] || r == rs[3];
  }

  /** The rule list unrolled: the error list is the four optional messages in order. */
  lemma PasswordErrorsInOrder(password: string)
    ensures PasswordErrors(password) ==
      Violation(MinLength, password) + Violation(Lowercase, password)
      + Violation(Uppercase, password) + Violation(Digit, password)
  {
    var rs := PasswordRules;
    assert rs[1..] == [Lowercase, Uppercase, Digit];
    assert rs[1..][1..] == [Uppercase, Digit];
    assert rs[1..][1..][1..] == [Digit];
    assert rs[1..][1..][1..][1..] == [];
    assert Violations(rs[1..][1..][1..], password) == Violation(Digit, password);
    assert Violations(rs[1..][1..], password)
      == Violation(Uppercase, password) + Violation(Digit, password);
    assert Violations(rs[1..], password)
      == Violation(Lowercase, password) + (Violation(Uppercase, password) + Violation(Digit, password));
  }

  // ---------------------------------------------------------------- strength

  /** The five criteria `checkPasswordStrength` awards a point for, in order. */
  datatype StrengthCriterion = AtLeast8 | AtLeast12 | MixedCase | ContainsDigit | ContainsSymbol

  const StrengthCriteria: seq<StrengthCriterion> :=
    [AtLeast8, AtLeast12, MixedCase, ContainsDigit, ContainsSymbol]

  predicate Meets(c: StrengthCriterion, password: string) {
    match c
    case AtLeast8 => JsLength(password) >= 8
    case AtLeast12 => JsLength(password) >= 12
    case MixedCase => HasLower(password) && HasUpper(password)
    case ContainsDigit => HasDigit(password)
    case ContainsSymbol => HasSymbol(password)
  }

  function Point(c: StrengthCriterion, password: string): nat {
    if Meets(c, password) then 1 else 0
  }

  /** How many of `criteria` the password meets. */
  function CountMet(criteria: seq<StrengthCriterion>, password: string): (n: nat)
    ensures n <= |criteria|
    ensures n == |criteria| <==> forall k :: 0 <= k < |criteria| ==> Meets(criteria[k], password)
  {
    if criteria == [] then 0
    else
      var rest := CountMet(criteria[1..], password);
      assert forall k :: 1 <= k < |criteria| ==> criteria[k] == criteria[1..][k - 1];
      Point(criteria[0], password) + rest
  }

  /** The strength score: one point per criterion met. */
  function Strength(password: string): (n: nat)
    ensures n <= 5
  {
    CountMet(StrengthCriteria, password)
  }

  /** `checkPasswordStrength`: a counter bumped once per criterion met. */
  method CheckPasswordStrength(password: string) returns (strength: nat)
    ensures strength == Strength(password)
    ensures strength <= 5
  {
    strength := 0;
    if JsLength(password) >= 8 { strength := strength + 1; }
    if JsLength(password) >= 12 { strength := strength + 1; }
    if HasLower(password) && HasUpper(password) { strength := strength + 1; }
    if HasDigit(password) { strength := strength + 1; }
    if HasSymbol(password) { strength := strength + 1; }
    StrengthInOrder(password);
  }

  /** The criteria list unrolled: one point for each criterion met. */
  lemma StrengthInOrder(password: string)
    ensures Strength(password) ==
      Point(AtLeast8, password) + Point(AtLeast12, password) + Point(MixedCase, password)
      + Point(ContainsDigit, password) + Point(ContainsSymbol, password)
  {
    var cs := StrengthCriteria;
    assert cs[1..] == [AtLeast12, MixedCase, ContainsDigit, ContainsSymbol];
    assert cs[1..][1..] == [MixedCase, ContainsDigit, ContainsSymbol];
    assert cs[1..][1..][1..] == [ContainsDigit, ContainsSymbol];
    assert cs[1..][1..][1..][1..] == [ContainsSymbol];
    assert cs[1..][1..][1..][1..][1..] == [];
    assert CountMet(cs[1..][1..][1..][1..], password) == Point(ContainsSymbol, password);
    assert CountMet(cs[1..][1..][1..], password)
      == Point(ContainsDigit, password) + Point(ContainsSymbol, password);
    assert CountMet(cs[1..][1..], password)
      == Point(MixedCase, password) + Point(ContainsDigit, password) + Point(ContainsSymbol, password);
    assert CountMet(cs[1..], password) == Point(AtLeast12, password) + CountMet(cs[1..][1..], password);
    assert CountMet(cs, password) == Point(AtLeast8, password) + CountMet(cs[1..], password);
  }

  /** A password `validatePassword` accepts scores at least 3: it is long enough,
      has both cases and has a digit. */
  lemma AcceptedPasswordScoresAtLeastThree(password: string)
    requires PasswordErrors(password) == []
    ensures Strength(password) >= 3
  {
    ViolationsSpec(PasswordRules, password);
    assert RuleHolds(PasswordRules[0], password) && RuleHolds(PasswordRules[1], password);
    assert RuleHolds(PasswordRules[2], password) && RuleHolds(PasswordRules[3], password);
    StrengthInOrder(password);
  }

  // ---------------------------------------------------------------- strength label

  /** The text the indicator shows; `Unlabelled` is the empty text the switch
      leaves for a score outside 0..5. */
  datatype StrengthLabel = Weak | Medium | Strong | Unlabelled

  function LabelFor(score: int): StrengthLabel {
    if score == 0 || score == 1 then Weak
    else if score == 2 || score == 3 then Medium
    else if score == 4 || score == 5 then Strong
    else Unlabelled
  }

  /** The indicator shown under the password field as it is typed: none for an
      empty field; otherwise a label for the strength score, which is always
      one of Weak (0-1), Medium (2-3) and Strong (4-5). */
  function StrengthIndicator(value: string): (r: Option<StrengthLabel>)
    ensures r.None? <==> value == []
    ensures r.Some? ==> r.value != Unlabelled
    ensures r.Some? ==> (r.value == Weak <==> Strength(value) <= 1)
    ensures r.Some? ==> (r.value == Strong <==> Strength(value) >= 4)
  {
    if JsLength(value) > 0 then Some(LabelFor(Strength(value))) else None
  }

  /** The indicator never calls an accepted password weak. */
  lemma AcceptedPasswordIsNotWeak(password: string)
    requires PasswordErrors(password) == []
    ensures StrengthIndicator(password) == Some(Medium) || StrengthIndicator(password) == Some(Strong)
  {
    AcceptedPasswordScoresAtLeastThree(password);
    ViolationsSpec(PasswordRules, password);
    assert RuleHolds(PasswordRules[0], password);
  }
}
