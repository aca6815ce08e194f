/**
 * `validateForm` of the listing form: six rules checked in a fixed order, the
 * first one that fails decides the message, and the empty string means the
 * record may be sent. Each regular expression of the component is written as
 * a predicate over the characters of the string it tests.
 */
module FormValidation {
  import opened Wrappers
  import opened JsText
  import opened FormRecord

  const NameMessage: string := "Имя должно быть на русском языке и без лишних пробелов."
  const PhoneMessage: string := "Телефон должен содержать только цифры и знак \"+\" (до 15 цифр)."
  const EmailMessage: string := "Введите корректный адрес электронной почты."
  const PasswordMessage: string :=
    "Пароль должен содержать минимум 7 символов, включая одну заглавную букву, одну строчную и одну цифру."
  const MismatchMessage: string := "Пароли должны совпадать."
  const RequiredMessage: string := "Пожалуйста, заполните все обязательные поля."

  // ---------------------------------------------------------------- character classes

  predicate IsAsciiLower(c: char) { 'a' <= c <= 'z' }
  predicate IsAsciiUpper(c: char) { 'A' <= c <= 'Z' }
  predicate IsAsciiLetter(c: char) { IsAsciiLower(c) || IsAsciiUpper(c) }
  predicate IsAsciiAlnum(c: char) { IsAsciiLetter(c) || IsAsciiDigit(c) }

  /** `[а-яА-ЯёЁ]`: the basic Cyrillic block U+0410..U+044F plus U+0401 and U+0451. */
  predicate IsCyrillicLetter(c: char) {
    ('\U{0430}' <= c <= '\U{044F}') || ('\U{0410}' <= c <= '\U{042F}') || c == '\U{0451}' || c == '\U{0401}'
  }

  /** `[а-яА-ЯёЁ\s\-]` */
  predicate IsNameChar(c: char) { IsCyrillicLetter(c) || IsWhitespace(c) || c == '-' }

  /** `[a-zA-Z0-9._-]`, the local part of an address. */
  predicate IsLocalChar(c: char) { IsAsciiAlnum(c) || c == '.' || c == '_' || c == '-' }

  /** `[a-zA-Z0-9.-]`, the domain part of an address. */
  predicate IsDomainChar(c: char) { IsAsciiAlnum(c) || c == '.' || c == '-' }

  predicate AllDigits(s: string) { forall k :: 0 <= k < |s| ==> IsAsciiDigit(s[k]) }
  predicate AllLocal(s: string) { forall k :: 0 <= k < |s| ==> IsLocalChar(s[k]) }
  predicate AllDomain(s: string) { forall k :: 0 <= k < |s| ==> IsDomainChar(s[k]) }
  predicate AllLetters(s: string) { forall k :: 0 <= k < |s| ==> IsAsciiLetter(s[k]) }

  // ---------------------------------------------------------------- the patterns

  /** `/^[а-яА-ЯёЁ\s\-]+$/` */
  predicate NamePattern(s: string) {
    |s| >= 1 && forall k :: 0 <= k < |s| ==> IsNameChar(s[k])
  }

  /** `\d{1,15}` */
  predicate DigitRun(s: string) { 1 <= |s| <= 15 && AllDigits(s) }

  /** `/^\+?\d{1,15}$/`: the two ways the optional `+` can match. */
  predicate PhonePattern(s: string) {
    (|s| >= 1 && s[0] == '+' && DigitRun(s[1..])) || DigitRun(s)
  }

  /**
   * The `@` at `i` and the `.` at `j` split `s` into a non-empty local part,
   * a non-empty domain and a top-level label of 2 to 6 letters.
   */
  predicate EmailSplitAt(s: string, i: int, j: int) {
    0 < i && i + 1 < j && j < |s|
    && s[i] == '@' && s[j] == '.' && 2 <= |s| - (j + 1) <= 6
    && AllLocal(s[..i]) && AllDomain(s[i + 1..j]) && AllLetters(s[j + 1..])
  }

  /** `/^[a-zA-Z0-9._-]+@[a-zA-Z0-9.-]+\.[a-zA-Z]{2,6}$/`: the regular expression matches when some split does. */
  predicate EmailPattern(s: string) {
    exists i, j {:trigger EmailSplitAt(s, i, j)} | 0 < i < j < |s| :: EmailSplitAt(s, i, j)
  }

  /** `/^(?=.*[a-z])(?=.*[A-Z])(?=.*\d)[a-zA-Z\d]{7,}$/` */
  predicate PasswordPattern(s: string) {
    |s| >= 7
    && (forall k :: 0 <= k < |s| ==> IsAsciiAlnum(s[k]))
    && (exists k :: 0 <= k < |s| && IsAsciiLower(s[k]))
    && (exists k :: 0 <= k < |s| && IsAsciiUpper(s[k]))
    && (exists k :: 0 <= k < |s| && IsAsciiDigit(s[k]))
  }

  // ---------------------------------------------------------------- the rules

  datatype Rule = NameRule | PhoneRule | EmailRule | PasswordRule | ConfirmationRule | RequiredRule

  /** The order in which `validateForm` tries its rules. */
  const RuleOrder: seq<Rule> := [NameRule, PhoneRule, EmailRule, PasswordRule, ConfirmationRule, RequiredRule]

  function Message(r: Rule): string {
    match r
    case NameRule => NameMessage
    case PhoneRule => PhoneMessage
    case EmailRule => EmailMessage
    case PasswordRule => PasswordMessage
    case ConfirmationRule => MismatchMessage
    case RequiredRule => RequiredMessage
  }

  /** Every message is non-empty (so it reads as a failure) and names its rule unambiguously. */
  lemma MessagesDistinct()
    ensures forall r :: Message(r) != []
    ensures forall r1, r2 :: Message(r1) == Message(r2) ==> r1 == r2
  {
    assert |NameMessage| == 55 && |PhoneMessage| == 62 && |EmailMessage| == 43;
    assert |PasswordMessage| == 101 && |MismatchMessage| == 24 && |RequiredMessage| == 44;
  }

  /**
   * Whether rule `r` lets the record through. The name must not be blank
   * (what `trim` leaves is non-empty) and must match its pattern untrimmed.
   * The password rules hold
   * vacuously unless the user chose to register; the required-fields rule
   * tests the photo slot for `null` only, since an empty file list is truthy.
   */
  predicate Passes(r: Rule, f: FormData, registering: bool) {
    match r
    case NameRule => !AllWhitespace(f.name) && NamePattern(f.name)
    case PhoneRule => PhonePattern(f.phone)
    case EmailRule => EmailPattern(f.email)
    case PasswordRule => !registering || PasswordPattern(f.password)
    case ConfirmationRule => !registering || f.password == f.passwordConfirmation
    case RequiredRule => f.name != [] && f.phone != [] && f.email != [] && f.photos1.Some? && f.confirm
  }

  /**
   * The decision of `validateForm`, as the rule whose message it returns:
   * its early returns in source order, each with the condition the source
   * tests (the name check uses `trim`, the required-fields check is the
   * source's truthiness test).
   */
  function FailedRule(f: FormData, registering: bool): Option<Rule> {
    if Trim(f.name) == [] || !NamePattern(f.name) then Some(NameRule)
    else if !PhonePattern(f.phone) then Some(PhoneRule)
    else if !EmailPattern(f.email) then Some(EmailRule)
    else if registering && !PasswordPattern(f.password) then Some(PasswordRule)
    else if registering && f.password != f.passwordConfirmation then Some(ConfirmationRule)
    else if f.name == [] || f.phone == [] || f.email == [] || f.photos1.None? || !f.confirm then Some(RequiredRule)
    else None
  }

  /** `validateForm`: the message of the first rule of `RuleOrder` that fails, or the empty string. */
  function ValidateForm(f: FormData, registering: bool): (msg: string)
    ensures var k := FirstFailingIndex(f, registering);
      msg == if k < |RuleOrder| then Message(RuleOrder[k]) else []
  {
    FailedRuleIsFirstFailing(f, registering);
    match FailedRule(f, registering)
    case None => []
    case Some(r) => Message(r)
  }

  /** The position in `RuleOrder` of the first rule that fails, or `|RuleOrder|` when none does. */
  function FirstFailingIndex(f: FormData, registering: bool): (k: nat)
    ensures k <= |RuleOrder|
    ensures forall j :: 0 <= j < k ==> Passes(RuleOrder[j], f, registering)
    ensures k < |RuleOrder| ==> !Passes(RuleOrder[k], f, registering)
  {
    if !Passes(RuleOrder[0], f, registering) then 0
    else if !Passes(RuleOrder[1], f, registering) then 1
    else if !Passes(RuleOrder[2], f, registering) then 2
    else if !Passes(RuleOrder[3], f, registering) then 3
    else if !Passes(RuleOrder[4], f, registering) then 4
    else if !Passes(RuleOrder[5], f, registering) then 5
    else 6
  }

  /** A name, phone or email that matches its pattern is a non-empty (truthy) string. */
  lemma PatternsNonEmpty(f: FormData)
    ensures NamePattern(f.name) ==> f.name != []
    ensures PhonePattern(f.phone) ==> f.phone != []
    ensures EmailPattern(f.email) ==> f.email != []
  {
  }

  /** The source's chain of early returns stops exactly at the first rule of `RuleOrder` that fails. */
  lemma {:induction false} FailedRuleIsFirstFailing(f: FormData, registering: bool)
    ensures FailedRule(f, registering) ==
      (var k := FirstFailingIndex(f, registering); if k < |RuleOrder| then Some(RuleOrder[k]) else None)
  {
    assert Trim(f.name) == [] <==> AllWhitespace(f.name);
    PatternsNonEmpty(f);
  }

  /**
   * `validateForm` returns the empty string exactly when every rule passes,
   * and otherwise the message of the first rule in `RuleOrder` that fails.
   */
  lemma {:induction false} ValidateFormFirstFailure(f: FormData, registering: bool)
    ensures ValidateForm(f, registering) == [] <==>
      forall i :: 0 <= i < |RuleOrder| ==> Passes(RuleOrder[i], f, registering)
    ensures ValidateForm(f, registering) != [] ==>
      exists i :: 0 <= i < |RuleOrder| && !Passes(RuleOrder[i], f, registering)
        && ValidateForm(f, registering) == Message(RuleOrder[i])
        && forall j :: 0 <= j < i ==> Passes(RuleOrder[j], f, registering)
  {
    MessagesDistinct();
    var k := FirstFailingIndex(f, registering);
    if k < |RuleOrder| {
      assert ValidateForm(f, registering) == Message(RuleOrder[k]);
    }
  }

  // ---------------------------------------------------------------- what each rule accepts

  /**
   * `validateForm` answers with the name message exactly when the name is
   * blank (empty or all whitespace) or holds a character outside Cyrillic
   * letters, whitespace and `-`, whatever the other fields hold.
   */
  lemma {:induction false} NameRuleCharacterization(f: FormData, registering: bool)
    ensures ValidateForm(f, registering) == NameMessage <==>
      AllWhitespace(f.name) || exists k :: 0 <= k < |f.name| && !IsNameChar(f.name[k])
  {
    MessagesDistinct();
  }

  /** A Latin letter or an ASCII digit anywhere in the name makes `validateForm` answer with the name message. */
  lemma {:induction false} LatinOrDigitNameRejected(f: FormData, registering: bool, k: int)
    requires 0 <= k < |f.name| && (IsAsciiLetter(f.name[k]) || IsAsciiDigit(f.name[k]))
    ensures ValidateForm(f, registering) == NameMessage
  {
    assert !IsNameChar(f.name[k]);
    assert FirstFailingIndex(f, registering) == 0;
  }

  /** A name that is empty or only whitespace is rejected by the name rule, though `\s` is in its class. */
  lemma {:induction false} BlankNameRejected(f: FormData, registering: bool)
    requires AllWhitespace(f.name)
    ensures ValidateForm(f, registering) == NameMessage
  {
    assert FirstFailingIndex(f, registering) == 0;
  }

  /** The number of leading `+` signs the phone pattern can consume: zero or one. */
  function SignLength(s: string): (n: nat)
    ensures n <= |s| && (n == 1 <==> |s| >= 1 && s[0] == '+')
  {
    if |s| >= 1 && s[0] == '+' then 1 else 0
  }

  /**
   * The phone pattern accepts exactly the strings whose every character is
   * an ASCII digit, except possibly a `+` in front, and that have 1 to 15
   * digits after the sign.
   */
  lemma {:induction false} PhoneRuleCharacterization(s: string)
    ensures PhonePattern(s) <==>
      (forall k :: 0 <= k < |s| ==> IsAsciiDigit(s[k]) || (k == 0 && s[k] == '+'))
      && 1 <= |s| - SignLength(s) <= 15
  {
    if |s| >= 1 && s[0] == '+' {
      assert !DigitRun(s);
      assert forall k :: 1 <= k < |s| ==> s[1..][k - 1] == s[k];
      assert forall k :: 0 <= k < |s| - 1 ==> s[1..][k] == s[k + 1];
    }
  }

  // ---------------------------------------------------------------- the e-mail split

  /** The position of the first `c` in `s`. */
  function IndexOf(s: string, c: char): (r: Option<nat>)
    ensures r.Some? ==> r.value < |s| && s[r.value] == c && forall k :: 0 <= k < r.value ==> s[k] != c
    ensures r.None? ==> forall k :: 0 <= k < |s| ==> s[k] != c
  {
    if s == [] then None
    else if s[0] == c then Some(0)
    else match IndexOf(s[1..], c)
      case None => None
      case Some(i) => Some(i + 1)
  }

  /** The position of the last `c` in `s`. */
  function LastIndexOf(s: string, c: char): (r: Option<nat>)
    ensures r.Some? ==> r.value < |s| && s[r.value] == c && forall k :: r.value < k < |s| ==> s[k] != c
    ensures r.None? ==> forall k :: 0 <= k < |s| ==> s[k] != c
  {
    if s == [] then None
    else if s[|s| - 1] == c then Some(|s| - 1)
    else LastIndexOf(s[..|s| - 1], c)
  }

  /**
   * The address split the e-mail pattern needs is forced: the `@` is the
   * first `@` of the string and the dot before the top-level label is its
   * last dot, so the pattern's choice of split never matters.
   */
  predicate EmailSplitForced(s: string) {
    match (IndexOf(s, '@'), LastIndexOf(s, '.'))
    case (Some(i), Some(j)) => EmailSplitAt(s, i, j)
    case _ => false
  }

  lemma {:induction false} EmailPatternIsForcedSplit(s: string)
    ensures EmailPattern(s) <==> EmailSplitForced(s)
  {
    if EmailPattern(s) {
      var i, j :| 0 < i < j < |s| && EmailSplitAt(s, i, j);
      // No `@` in the local part, so `i` is the first `@`.
      assert forall k :: 0 <= k < i ==> s[k] != '@' by {
        forall k | 0 <= k < i ensures s[k] != '@' { assert s[..i][k] == s[k]; }
      }
      // No dot in the top-level label, so `j` is the last dot.
      assert forall k :: j < k < |s| ==> s[k] != '.' by {
        forall k | j < k < |s| ensures s[k] != '.' { assert s[j + 1..][k - (j + 1)] == s[k]; }
      }
      var a := IndexOf(s, '@');
      var d := LastIndexOf(s, '.');
      assert a == Some(i);
      assert d == Some(j);
    }
    if EmailSplitForced(s) {
      var i := IndexOf(s, '@').value;
      var j := LastIndexOf(s, '.').value;
      assert EmailSplitAt(s, i, j);
    }
  }

  /** The top-level label takes 2 to 6 letters; an address without `@` never matches. */
  lemma {:induction false} EmailLabelBounds(s: string)
    ensures EmailPattern("x@y.zz") && EmailPattern("x@y.zzzzzz")
    ensures !EmailPattern("x@y.z") && !EmailPattern("x@y.zzzzzzz")
    ensures (forall k :: 0 <= k < |s| ==> s[k] != '@') ==> !EmailPattern(s)
  {
    assert EmailSplitAt("x@y.zz", 1, 3);
    assert EmailSplitAt("x@y.zzzzzz", 1, 3);
    var short, long := "x@y.z", "x@y.zzzzzzz";
    assert forall k :: 0 <= k < |short| && short[k] == '.' ==> k == 3;
    assert forall k :: 0 <= k < |long| && long[k] == '.' ==> k == 3;
  }

  // ---------------------------------------------------------------- the rules inside validateForm

  /** While the user does not register, the password fields cannot change the outcome. */
  lemma {:induction false} PasswordsIgnoredUnlessRegistering(f: FormData, password: string, confirmation: string)
    ensures ValidateForm(f.(password := password, passwordConfirmation := confirmation), false)
         == ValidateForm(f, false)
  {
    var g := f.(password := password, passwordConfirmation := confirmation);
    assert forall r :: Passes(r, g, false) == Passes(r, f, false);
    assert FirstFailingIndex(g, false) == FirstFailingIndex(f, false);
  }

  /** No password shorter than seven characters meets the policy. */
  lemma PasswordTooShort(s: string)
    requires |s| < 7
    ensures !PasswordPattern(s)
  {
  }

  /**
   * When registering, and once name, phone and e-mail pass, `validateForm`
   * answers with the password message exactly when the password is shorter
   * than seven characters, holds a character other than an ASCII letter or
   * digit, or lacks a lower-case letter, an upper-case letter or a digit.
   */
  lemma {:induction false} PasswordRuleOutcome(f: FormData)
    requires Passes(NameRule, f, true) && Passes(PhoneRule, f, true) && Passes(EmailRule, f, true)
    ensures ValidateForm(f, true) == PasswordMessage <==>
      |f.password| < 7
      || (exists k :: 0 <= k < |f.password| && !IsAsciiAlnum(f.password[k]))
      || (forall k :: 0 <= k < |f.password| ==> !IsAsciiLower(f.password[k]))
      || (forall k :: 0 <= k < |f.password| ==> !IsAsciiUpper(f.password[k]))
      || (forall k :: 0 <= k < |f.password| ==> !IsAsciiDigit(f.password[k]))
  {
    MessagesDistinct();
    if |f.password| < 7 {
      PasswordTooShort(f.password);
    }
    assert FirstFailingIndex(f, true) >= 3;
  }

  /** `Abcdef1`, seven characters meeting every class requirement, passes the policy; `Abcde1`, six, does not. */
  lemma PasswordLengthBoundary()
    ensures PasswordPattern("Abcdef1")
    ensures !PasswordPattern("Abcde1")
  {
    assert IsAsciiLower("Abcdef1"[1]) && IsAsciiUpper("Abcdef1"[0]) && IsAsciiDigit("Abcdef1"[6]);
  }

  /** When registering, a password that meets the policy but differs from its confirmation yields the mismatch message. */
  lemma {:induction false} MismatchedConfirmationRejected(f: FormData)
    requires Passes(NameRule, f, true) && Passes(PhoneRule, f, true) && Passes(EmailRule, f, true)
    requires PasswordPattern(f.password) && f.password != f.passwordConfirmation
    ensures ValidateForm(f, true) == MismatchMessage
  {
    assert FirstFailingIndex(f, true) == 4;
  }

  /**
   * Once the first five rules pass, the required-fields rule fails exactly when
   * photo slot 1 is `null` or consent is not given. An empty file list in slot
   * 1 is not `null` and lets the record through.
   */
  lemma {:induction false} RequiredFieldsCatchAll(f: FormData, registering: bool)
    requires forall i :: 0 <= i < 5 ==> Passes(RuleOrder[i], f, registering)
    ensures ValidateForm(f, registering) == if f.photos1.None? || !f.confirm then RequiredMessage else []
  {
    assert Passes(RuleOrder[0], f, registering) && Passes(RuleOrder[1], f, registering);
    assert Passes(RuleOrder[2], f, registering);
    PatternsNonEmpty(f);
    assert (f.photos1.None? || !f.confirm) <==> !Passes(RuleOrder[5], f, registering);
  }
}
