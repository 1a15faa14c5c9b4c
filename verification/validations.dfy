/** Request validation rules (src/lib/validations.ts): the date-string
    predicate, numeric bounds of paging and settings fields, the password-reset
    rules, and how query parameters are collected before validation. */
module Validations {
  import opened Wrappers
  import Decimal

  // ---------------------------------------------------------------------------
  // Date strings
  // ---------------------------------------------------------------------------

  /** One position of a fixed-width regular expression: `\d` or a literal. */
  datatype CharClass = Digit | Lit(c: char)

  /** `\d` in a JavaScript regular expression without the `u` flag is [0-9]. */
  predicate Fits(ch: char, k: CharClass) {
    match k
    case Digit => Decimal.IsDigit(ch)
    case Lit(c) => ch == c
  }

  /** `^p` (or `^p$` when `anchoredEnd`) matched against `s` (`RegExp.test`), one class per character. */
  function Match(s: string, pat: seq<CharClass>, anchoredEnd: bool): bool
    decreases |pat|
  {
    if |pat| == 0 then !anchoredEnd || |s| == 0
    else |s| > 0 && Fits(s[0], pat[0]) && Match(s[1..], pat[1..], anchoredEnd)
  }

  /** Position-wise reading of an anchored match. */
  lemma {:induction false} MatchPositions(s: string, pat: seq<CharClass>, anchoredEnd: bool)
    ensures Match(s, pat, anchoredEnd) <==>
              && |s| >= |pat|
              && (anchoredEnd ==> |s| == |pat|)
              && forall i :: 0 <= i < |pat| ==> Fits(s[i], pat[i])
    decreases |pat|
  {
    if |pat| > 0 && |s| > 0 {
      MatchPositions(s[1..], pat[1..], anchoredEnd);
      if |s| >= |pat| {
        assert forall i :: 0 <= i < |pat| - 1 ==> s[1..][i] == s[i + 1] && pat[1..][i] == pat[i + 1];
      }
    }
  }

  /** `\d{4}-\d{2}-\d{2}` */
  const DatePattern: seq<CharClass> := [Digit, Digit, Digit, Digit, Lit('-'), Digit, Digit, Lit('-'), Digit, Digit]

  /** `\d{4}-\d{2}-\d{2}T\d{2}:\d{2}:\d{2}` */
  const DateTimePattern: seq<CharClass> :=
    DatePattern + [Lit('T'), Digit, Digit, Lit(':'), Digit, Digit, Lit(':'), Digit, Digit]

  /** The refine predicate of `dateStringSchema`: empty, or `^date$`, or `^datetime`
      (no end anchor). The schema is optional, so an absent value passes too. */
  function DateStringValid(v: Option<string>): (ok: bool)
    ensures v == Some("") ==> ok
    ensures v.None? ==> ok
  {
    match v
    case None => true
    case Some(s) => s == "" || Match(s, DatePattern, true) || Match(s, DateTimePattern, false)
  }

  /** Digits and dashes in the places of `YYYY-MM-DD`, nothing checked about the calendar. */
  predicate DateShape(s: string) {
    && |s| == 10
    && s[4] == '-' && s[7] == '-'
    && forall i :: 0 <= i < 10 && i != 4 && i != 7 ==> Decimal.IsDigit(s[i])
  }

  /** `YYYY-MM-DDTHH:MM:SS` in the first 19 characters. */
  predicate DateTimeShape(s: string) {
    && |s| >= 19
    && DateShape(s[..10])
    && s[10] == 'T' && s[13] == ':' && s[16] == ':'
    && forall i :: 11 <= i < 19 && i != 13 && i != 16 ==> Decimal.IsDigit(s[i])
  }

  /** The accepted strings are exactly: the empty string, a date shape, or
      anything that starts with a date-time shape. */
  lemma DateStringCharacterized(s: string)
    ensures DateStringValid(Some(s)) <==> s == "" || DateShape(s) || DateTimeShape(s)
  {
    DateMatchIsShape(s);
    DateTimeMatchIsShape(s);
  }

  /** `^\d{4}-\d{2}-\d{2}$` accepts exactly the date shapes. */
  lemma DateMatchIsShape(s: string)
    ensures Match(s, DatePattern, true) <==> DateShape(s)
  {
    MatchPositions(s, DatePattern, true);
    if |s| == 10 {
      DateFits(s);
    }
  }

  /** `^\d{4}-\d{2}-\d{2}T\d{2}:\d{2}:\d{2}` accepts exactly the strings that
      start with a date-time shape. */
  lemma DateTimeMatchIsShape(s: string)
    ensures Match(s, DateTimePattern, false) <==> DateTimeShape(s)
  {
    MatchPositions(s, DateTimePattern, false);
    if |s| >= 19 {
      var d := s[..10];
      DateFits(d);
      assert forall i :: 0 <= i < 10 ==> d[i] == s[i] && DateTimePattern[i] == DatePattern[i];
      TimeFits(s);
    }
  }

  /** A ten-character string fits the date pattern position by position
      exactly when it has the date shape. */
  lemma DateFits(s: string)
    requires |s| == 10
    ensures (forall i :: 0 <= i < 10 ==> Fits(s[i], DatePattern[i])) <==> DateShape(s)
  {
    if forall i :: 0 <= i < 10 ==> Fits(s[i], DatePattern[i]) {
      assert Fits(s[4], DatePattern[4]) && Fits(s[7], DatePattern[7]);
      forall i | 0 <= i < 10 && i != 4 && i != 7
        ensures Decimal.IsDigit(s[i])
      {
        assert DatePattern[i] == Digit;
        assert Fits(s[i], DatePattern[i]);
      }
    }
    if DateShape(s) {
      forall i | 0 <= i < 10
        ensures Fits(s[i], DatePattern[i])
      {
        if i == 4 || i == 7 {
          assert DatePattern[i] == Lit('-');
        } else {
          assert DatePattern[i] == Digit;
        }
      }
    }
  }

  /** Positions 10 to 18 fit the time part of the date-time pattern exactly
      when they hold `T`, digits and colons in the places of `THH:MM:SS`. */
  lemma TimeFits(s: string)
    requires |s| >= 19
    ensures (forall i :: 10 <= i < 19 ==> Fits(s[i], DateTimePattern[i])) <==>
              && s[10] == 'T' && s[13] == ':' && s[16] == ':'
              && forall i :: 11 <= i < 19 && i != 13 && i != 16 ==> Decimal.IsDigit(s[i])
  {
    if forall i :: 10 <= i < 19 ==> Fits(s[i], DateTimePattern[i]) {
      assert Fits(s[10], DateTimePattern[10]) && Fits(s[13], DateTimePattern[13]) && Fits(s[16], DateTimePattern[16]);
      forall i | 11 <= i < 19 && i != 13 && i != 16
        ensures Decimal.IsDigit(s[i])
      {
        assert DateTimePattern[i] == Digit;
        assert Fits(s[i], DateTimePattern[i]);
      }
    }
    if s[10] == 'T' && s[13] == ':' && s[16] == ':'
       && forall i :: 11 <= i < 19 && i != 13 && i != 16 ==> Decimal.IsDigit(s[i])
    {
      forall i | 10 <= i < 19
        ensures Fits(s[i], DateTimePattern[i])
      {
        if i == 10 {
          assert DateTimePattern[i] == Lit('T');
        } else if i == 13 || i == 16 {
          assert DateTimePattern[i] == Lit(':');
        } else {
          assert DateTimePattern[i] == Digit;
        }
      }
    }
  }

  /** No calendar check: month 99 and day 99 pass. */
  lemma NoCalendarCheck()
    ensures DateStringValid(Some("9999-99-99"))
  {
    DateStringCharacterized("9999-99-99");
  }

  /** The date-time form is anchored only at the start: any text may follow the seconds. */
  lemma DateTimeAnySuffix(s: string, suffix: string)
    requires DateTimeShape(s)
    ensures DateStringValid(Some(s + suffix))
  {
    assert (s + suffix)[..10] == s[..10];
    DateStringCharacterized(s + suffix);
  }

  // ---------------------------------------------------------------------------
  // Numeric bounds
  // ---------------------------------------------------------------------------

  /** A JavaScript number with no fractional part (NaN and infinities are not modelled). */
  predicate IsInteger(x: real) {
    x == x.Floor as real
  }

  /** `z.number().int().min(lo).max(hi)`: the accepted values are exactly the integers in [lo, hi]. */
  function BoundedInt(x: real, lo: int, hi: int): (r: Option<int>)
    ensures !IsInteger(x) ==> r.None?
    ensures r.Some? ==> lo <= r.value <= hi && x == r.value as real
  {
    if IsInteger(x) && lo as real <= x <= hi as real then
      Some(x.Floor)
    else
      None
  }

  /** Every integer in [lo, hi] is accepted as itself, and no integer outside. */
  lemma BoundedIntAcceptsExactly(n: int, lo: int, hi: int)
    ensures BoundedInt(n as real, lo, hi) == if lo <= n <= hi then Some(n) else None
  {
  }

  /** `page`: a positive integer, 1 when absent. The coercion of the raw query
      text to a number is not part of this model: `raw` is the coerced number. */
  function Page(raw: Option<real>): (r: Option<int>)
    ensures raw.None? ==> r == Some(1)
    ensures r.Some? ==> r.value >= 1
    ensures raw.Some? ==> (r.Some? <==> IsInteger(raw.value) && raw.value >= 1.0)
    ensures raw.Some? && r.Some? ==> raw.value == r.value as real
  {
    match raw
    case None => Some(1)
    case Some(x) => if IsInteger(x) && x >= 1.0 then Some(x.Floor) else None
  }

  /** `limit`: a positive integer at most 100, 20 when absent. */
  function Limit(raw: Option<real>): (r: Option<int>)
    ensures raw.None? ==> r == Some(20)
    ensures r.Some? ==> 1 <= r.value <= 100
    ensures raw.Some? ==> (r.Some? <==> IsInteger(raw.value) && 1.0 <= raw.value <= 100.0)
    ensures raw.Some? && r.Some? ==> raw.value == r.value as real
  {
    match raw
    case None => Some(20)
    case Some(x) => BoundedInt(x, 1, 100)
  }

  /** The numeric fields of the security and notification settings (each optional). */
  datatype NumericSettings = NumericSettings(sessionTimeout: Option<real>, passwordExpiry: Option<real>,
                                             alertThreshold: Option<real>)

  datatype SettingsField = SessionTimeout | PasswordExpiry | AlertThreshold

  /** Bounds of each numeric settings field. */
  function Bounds(f: SettingsField): (int, int) {
    match f
    case SessionTimeout => (5, 1440)
    case PasswordExpiry => (0, 365)
    case AlertThreshold => (0, 100)
  }

  function FieldValue(s: NumericSettings, f: SettingsField): Option<real> {
    match f
    case SessionTimeout => s.sessionTimeout
    case PasswordExpiry => s.passwordExpiry
    case AlertThreshold => s.alertThreshold
  }

  function FieldIssue(s: NumericSettings, f: SettingsField): seq<SettingsField> {
    match FieldValue(s, f)
    case None => []
    case Some(x) => if BoundedInt(x, Bounds(f).0, Bounds(f).1).Some? then [] else [f]
  }

  /** The fields of `s` that violate their bounds, in schema order. */
  function SettingsIssues(s: NumericSettings): (issues: seq<SettingsField>)
    ensures forall f :: f in issues <==>
              FieldValue(s, f).Some? && BoundedInt(FieldValue(s, f).value, Bounds(f).0, Bounds(f).1).None?
  {
    FieldIssue(s, SessionTimeout) + FieldIssue(s, PasswordExpiry) + FieldIssue(s, AlertThreshold)
  }

  /** Accepted settings hold integers within [5, 1440], [0, 365] and [0, 100]. */
  lemma AcceptedSettingsInRange(s: NumericSettings)
    requires SettingsIssues(s) == []
    ensures s.sessionTimeout.Some? ==>
              IsInteger(s.sessionTimeout.value) && 5.0 <= s.sessionTimeout.value <= 1440.0
    ensures s.passwordExpiry.Some? ==>
              IsInteger(s.passwordExpiry.value) && 0.0 <= s.passwordExpiry.value <= 365.0
    ensures s.alertThreshold.Some? ==>
              IsInteger(s.alertThreshold.value) && 0.0 <= s.alertThreshold.value <= 100.0
  {
    assert SessionTimeout !in SettingsIssues(s);
    assert PasswordExpiry !in SettingsIssues(s);
    assert AlertThreshold !in SettingsIssues(s);
  }

  // ---------------------------------------------------------------------------
  // Password reset
  // ---------------------------------------------------------------------------

  datatype ResetForm = ResetForm(token: string, password: string, confirmPassword: string)

  /** The rules of `resetPasswordSchema`, one per message. */
  datatype ResetIssue = TokenRequired | TooShort | NoUppercase | NoLowercase | NoNumber | ConfirmRequired | Mismatch

  predicate HasUpper(s: string) {
    exists i :: 0 <= i < |s| && 'A' <= s[i] <= 'Z'
  }

  predicate HasLower(s: string) {
    exists i :: 0 <= i < |s| && 'a' <= s[i] <= 'z'
  }

  predicate HasDigit(s: string) {
    exists i :: 0 <= i < |s| && Decimal.IsDigit(s[i])
  }

  /** Whether the form breaks one rule. */
  predicate Breaks(f: ResetForm, issue: ResetIssue) {
    match issue
    case TokenRequired => |f.token| < 1
    case TooShort => |f.password| < 8
    case NoUppercase => !HasUpper(f.password)
    case NoLowercase => !HasLower(f.password)
    case NoNumber => !HasDigit(f.password)
    case ConfirmRequired => |f.confirmPassword| < 1
    case Mismatch => f.password != f.confirmPassword
  }

  /** Every rule the form breaks. The string checks all run, and the equality
      refinement runs on the strings as given, so the issues are independent. */
  function ResetPasswordIssues(f: ResetForm): (issues: set<ResetIssue>)
    ensures TokenRequired in issues <==> f.token == ""
    ensures TooShort in issues <==> |f.password| < 8
    ensures NoUppercase in issues <==> !HasUpper(f.password)
    ensures NoLowercase in issues <==> !HasLower(f.password)
    ensures NoNumber in issues <==> !HasDigit(f.password)
    ensures ConfirmRequired in issues <==> f.confirmPassword == ""
    ensures Mismatch in issues <==> f.password != f.confirmPassword
  {
    set issue | issue in {TokenRequired, TooShort, NoUppercase, NoLowercase, NoNumber, ConfirmRequired, Mismatch}
                && Breaks(f, issue)
  }

  /** A reset form is accepted exactly when the token is present, the password
      has at least 8 characters with an upper-case letter, a lower-case letter
      and a digit, and the confirmation repeats it. */
  lemma ResetPasswordAccepted(f: ResetForm)
    ensures ResetPasswordIssues(f) == {} <==>
              && f.token != ""
              && |f.password| >= 8 && HasUpper(f.password) && HasLower(f.password) && HasDigit(f.password)
              && f.password == f.confirmPassword
  {
    var issues := ResetPasswordIssues(f);
    if issues != {} {
      var issue :| issue in issues;
      assert Breaks(f, issue);
    }
  }

  // ---------------------------------------------------------------------------
  // Query parameters
  // ---------------------------------------------------------------------------

  /** The one key a plain object does not store on assignment: setting
      `params["__proto__"]` to a string goes through the prototype setter,
      which ignores values that are not objects. */
  const ProtoKey: string := "__proto__"

  /** `validateQueryParams` copies each (key, value) pair of the query string
      into a plain object in order, so a repeated key keeps its last value and
      a `__proto__` pair is dropped. */
  method CollectParams(pairs: seq<(string, string)>) returns (params: map<string, string>)
    ensures params.Keys == (set i | 0 <= i < |pairs| :: pairs[i].0) - {ProtoKey}
    ensures forall i :: 0 <= i < |pairs| && pairs[i].0 != ProtoKey
                        && (forall j :: i < j < |pairs| ==> pairs[j].0 != pairs[i].0) ==>
              params[pairs[i].0] == pairs[i].1
  {
    params := map[];
    var n := 0;
    while n < |pairs|
      invariant 0 <= n <= |pairs|
      invariant params.Keys == (set i | 0 <= i < n :: pairs[i].0) - {ProtoKey}
      invariant forall i :: 0 <= i < n && pairs[i].0 != ProtoKey
                            && (forall j :: i < j < n ==> pairs[j].0 != pairs[i].0) ==>
                  params[pairs[i].0] == pairs[i].1
    {
      if pairs[n].0 != ProtoKey {
        params := params[pairs[n].0 := pairs[n].1];
      }
      n := n + 1;
    }
  }
}
