/** The PhoneNumber value object (src/user/domain/value-objects/phone-number.vo.ts). */
module PhoneNumbers {
  import opened Optional
  import opened Text
  import opened Throwing

  const EmptyMessage := "Phone number cannot be empty."
  const FormatMessage := "Invalid phone number format. Expected: +994XXXXXXXXX."
  const CountryPrefix := "+994"
  const SubscriberDigits := 9

  predicate AllDigits(s: string) {
    forall i :: 0 <= i < |s| ==> IsDigit(s[i])
  }

  /** The language of `/^\+994\d{9}$/`. */
  ghost predicate MatchesPhonePattern(s: string) {
    exists digits :: |digits| == SubscriberDigits && AllDigits(digits) && s == CountryPrefix + digits
  }

  /** The pattern test, decided directly on positions. */
  predicate IsPhoneFormat(s: string) {
    |s| == |CountryPrefix| + SubscriberDigits && s[..|CountryPrefix|] == CountryPrefix
    && AllDigits(s[|CountryPrefix|..])
  }

  lemma PhoneFormatMatchesPattern(s: string)
    ensures IsPhoneFormat(s) <==> MatchesPhonePattern(s)
  {
    if IsPhoneFormat(s) {
      var digits := s[|CountryPrefix|..];
      assert s == CountryPrefix + digits;
    }
    if MatchesPhonePattern(s) {
      var digits :| |digits| == SubscriberDigits && AllDigits(digits) && s == CountryPrefix + digits;
      assert s[..|CountryPrefix|] == CountryPrefix;
      assert s[|CountryPrefix|..] == digits;
    }
  }

  datatype PhoneNumber = PhoneNumber(value: string) {

    predicate Valid() {
      IsPhoneFormat(value)
    }

    function GetValue(): string {
      value
    }

    function Equals(other: PhoneNumber): bool {
      value == other.value
    }
  }

  /**
   * `PhoneNumber.create(value)`: null/undefined is rejected; the input, not trimmed, is kept
   * when it is "+994" followed by exactly nine digits. Failures are thrown BadRequest errors.
   */
  function Create(input: Option<string>): (r: Try<PhoneNumber>)
    ensures r.Returned? <==> input.Some? && IsPhoneFormat(input.value)
    ensures r.Returned? ==> r.value.value == input.value && r.value.Valid()
    ensures input.None? ==> r == Threw(BadRequestThrown(EmptyMessage))
    ensures input.Some? && r.Threw? ==> r == Threw(BadRequestThrown(FormatMessage))
  {
    match input
    case None => Threw(BadRequestThrown(EmptyMessage))
    case Some(value) =>
      if !IsPhoneFormat(value) then Threw(BadRequestThrown(FormatMessage))
      else Returned(PhoneNumber(value))
  }

  /** An input is accepted exactly when it is +994 followed by nine digits. */
  lemma CreateMatchesPattern(input: Option<string>)
    ensures Create(input).Returned? <==> input.Some? && MatchesPhonePattern(input.value)
  {
    if input.Some? {
      PhoneFormatMatchesPattern(input.value);
    }
  }

  /** No normalisation happens: a padded number is rejected. */
  lemma PaddedNumberRejected(s: string)
    requires |s| > 0 && IsWhitespace(s[0])
    ensures Create(Some(s)) == Threw(BadRequestThrown(FormatMessage))
  {
  }
}
