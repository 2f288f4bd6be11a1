/**
 * The onboarding income field: what it stores as the user types, and the
 * amount it submits.
 */
module IncomeInput {
  import opened Wrappers
  import opened Text

  /** The longest run of digits at the start of `s`. */
  function DigitPrefix(s: string): (r: string)
    ensures AllDigits(r) && |r| <= |s| && r == s[..|r|]
    ensures |r| == |s| || !IsDigit(s[|r|])
  {
    if s != [] && IsDigit(s[0]) then [s[0]] + DigitPrefix(s[1..]) else []
  }

  /**
   * `parseInt(s, 10)`: leading white space and one sign skipped, then the
   * leading digits; `None` stands for NaN (no digit there).
   */
  function ParseInt(s: string): (r: Option<int>)
    ensures TrimStart(s) == [] ==> r.None?
    ensures AllDigits(s) && s != "" ==> r == Some(ValueOf(s))
  {
    assert AllDigits(s) && s != "" ==> TrimStart(s) == s && DigitPrefix(s) == s by {
      if AllDigits(s) && s != "" {
        assert !IsSpace(s[0]);
        DigitPrefixAll(s);
      }
    }
    var t := TrimStart(s);
    var body := if t != [] && (t[0] == '-' || t[0] == '+') then t[1..] else t;
    var digits := DigitPrefix(body);
    if digits == "" then None
    else Some(if t[0] == '-' then -(ValueOf(digits) as int) else ValueOf(digits))
  }

  lemma {:induction false} DigitPrefixAll(s: string)
    requires AllDigits(s)
    ensures DigitPrefix(s) == s
  {
    if s != [] { DigitPrefixAll(s[1..]); }
  }

  /** `parseInt` reads back the decimal spelling of a natural number. */
  lemma ParseIntDecimal(n: nat)
    ensures ParseInt(DecimalString(n)) == Some(n)
  {
    var s := DecimalString(n);
    assert !IsSpace(s[0]);
    assert TrimStart(s) == s;
    DigitPrefixAll(s);
    ValueOfDecimalString(n);
  }

  /**
   * `handleChange`: the digits of what was typed, shown with thousands
   * separators, or nothing when there is no digit.
   */
  function HandleChange(typed: string): (value: string)
    ensures Keep(typed, IsDigit) == "" <==> value == ""
    ensures forall i :: 0 <= i < |value| ==> IsDigit(value[i]) || value[i] == ','
  {
    var raw := Keep(typed, IsDigit);
    if raw == "" then "" else Grouped(ValueOf(raw))
  }

  /** `handleSubmit`: the amount passed to `onComplete`, if any. */
  function Submit(value: string): (amount: Option<int>)
    ensures amount.Some? ==> amount.value > 0
    ensures amount.Some? ==> ParseInt(Keep(value, NotComma)) == amount
  {
    var clean := ParseInt(Keep(value, NotComma));
    if clean.Some? && clean.value > 0 then clean else None
  }

  /**
   * Stripping the separators and parsing inverts the formatting: what is
   * submitted is the number formed by the digits typed, when it is positive.
   */
  lemma SubmitAfterChange(typed: string)
    ensures var digits := Keep(typed, IsDigit);
      Submit(HandleChange(typed)) == if digits != "" && ValueOf(digits) > 0 then Some(ValueOf(digits) as int) else None
  {
    var digits := Keep(typed, IsDigit);
    if digits == "" {
      assert Keep("", NotComma) == "";
      assert TrimStart("") == "";
    } else {
      var n := ValueOf(digits);
      UngroupGrouped(n);
      ParseIntDecimal(n);
    }
  }

  /** The field's first value: a non-zero `initialValue` in grouped form, else empty. */
  function InitialText(initialValue: Option<nat>): (value: string)
    ensures value == "" <==> initialValue.None? || initialValue.value == 0
    ensures value != "" ==> Submit(value) == Some(initialValue.value as int)
  {
    if initialValue.Some? && initialValue.value != 0 then
      var n := initialValue.value;
      UngroupGrouped(n);
      ParseIntDecimal(n);
      Grouped(n)
    else ""
  }

  /** `initialCurrency || DEFAULT_CURRENCY`. */
  function InitialCurrency(initialCurrency: string, defaultCurrency: string): (r: string)
    ensures initialCurrency != "" ==> r == initialCurrency
    ensures initialCurrency == "" ==> r == defaultCurrency
  {
    if initialCurrency != "" then initialCurrency else defaultCurrency
  }
}
