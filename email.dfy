/** The Email value object (src/user/domain/value-objects/email.vo.ts). */
module Emails {
  import opened Optional
  import opened Text
  import opened Throwing

  const EmptyMessage := "Email cannot be empty."
  const FormatMessage := "Invalid email format."

  /** The character class `[^@\s]`. */
  predicate Plain(c: char) {
    c != '@' && !IsWhitespace(c)
  }

  predicate AllPlain(s: string) {
    forall i :: 0 <= i < |s| ==> Plain(s[i])
  }

  /** The language of `/^[^@\s]+@[^@\s]+\.[^@\s]+$/`, written as the concatenation it denotes. */
  ghost predicate MatchesEmailPattern(s: string) {
    exists local, host, top ::
      && |local| > 0 && AllPlain(local)
      && |host| > 0 && AllPlain(host)
      && |top| > 0 && AllPlain(top)
      && s == local + "@" + host + "." + top
  }

  /**
   * The regular-expression test, decided directly: exactly one '@', preceded by plain
   * characters, followed by plain characters with a '.' that is neither first nor last.
   */
  predicate IsEmailFormat(s: string) {
    && '@' in s
    && var at := IndexOf(s, '@');
    && var domain := s[at + 1..];
    && at > 0 && AllPlain(s[..at])
    && |domain| >= 3 && AllPlain(domain)
    && '.' in domain[1..|domain| - 1]
  }

  lemma FormatImpliesPattern(s: string)
    requires IsEmailFormat(s)
    ensures MatchesEmailPattern(s)
  {
    var at := IndexOf(s, '@');
    var domain := s[at + 1..];
    var inner := domain[1..|domain| - 1];
    var d := 1 + IndexOf(inner, '.');
    var local, host, top := s[..at], domain[..d], domain[d + 1..];
    assert domain == host + "." + top;
    assert s == local + "@" + host + "." + top;
    AllPlainSlice(domain, 0, d);
    AllPlainSlice(domain, d + 1, |domain|);
    assert |local| > 0 && AllPlain(local);
    assert |host| > 0 && AllPlain(host);
    assert |top| > 0 && AllPlain(top);
  }

  lemma AllPlainSlice(s: string, i: nat, j: nat)
    requires AllPlain(s) && i <= j <= |s|
    ensures AllPlain(s[i..j])
  {
    forall k | 0 <= k < j - i
      ensures Plain(s[i..j][k])
    {
      assert s[i..j][k] == s[i + k];
    }
  }

  lemma PatternImpliesFormat(s: string, local: string, host: string, top: string)
    requires |local| > 0 && AllPlain(local)
    requires |host| > 0 && AllPlain(host)
    requires |top| > 0 && AllPlain(top)
    requires s == local + "@" + host + "." + top
    ensures IsEmailFormat(s)
  {
    assert '@' !in local;
    assert s == local + ['@'] + (host + "." + top);
    IndexOfAfterPrefix(local, '@', host + "." + top);
    assert s[..|local|] == local;
    var domain := s[|local| + 1..];
    assert domain == host + "." + top;
    assert domain[1..|domain| - 1][|host| - 1] == '.';
  }

  /** `IsEmailFormat` accepts exactly the strings the pattern matches. */
  lemma EmailFormatMatchesPattern(s: string)
    ensures IsEmailFormat(s) <==> MatchesEmailPattern(s)
  {
    if IsEmailFormat(s) {
      FormatImpliesPattern(s);
    }
    if MatchesEmailPattern(s) {
      var local, host, top :| && |local| > 0 && AllPlain(local)
                               && |host| > 0 && AllPlain(host)
                               && |top| > 0 && AllPlain(top)
                               && s == local + "@" + host + "." + top;
      PatternImpliesFormat(s, local, host, top);
    }
  }

  /** `value.trim().toLowerCase()` */
  function Normalize(s: string): string {
    ToLower(Trim(s))
  }

  datatype Email = Email(value: string) {

    /** What every email built by `Create` satisfies: normalised and well formed. */
    predicate Valid() {
      IsTrimmed(value) && IsLower(value) && IsEmailFormat(value)
    }

    function GetValue(): string {
      value
    }

    /** Two emails are equal when their stored strings are. */
    function Equals(other: Email): bool {
      value == other.value
    }
  }

  /**
   * `Email.create(value)`: null/undefined is rejected; otherwise the input is trimmed and
   * lower-cased and kept if it has the shape of an address. Failures are thrown BadRequest.
   */
  function Create(input: Option<string>): (r: Try<Email>)
    ensures r.Returned? <==> input.Some? && IsEmailFormat(Normalize(input.value))
    ensures r.Returned? ==> r.value.value == Normalize(input.value) && r.value.Valid()
    ensures input.None? ==> r == Threw(BadRequestThrown(EmptyMessage))
    ensures input.Some? && r.Threw? ==> r == Threw(BadRequestThrown(FormatMessage))
  {
    match input
    case None => Threw(BadRequestThrown(EmptyMessage))
    case Some(value) =>
      var normalized := Normalize(value);
      ToLowerIsLower(Trim(value));
      ToLowerKeepsTrimmed(Trim(value));
      if !IsEmailFormat(normalized) then Threw(BadRequestThrown(FormatMessage))
      else Returned(Email(normalized))
  }

  /** An input is accepted exactly when its normalised form has the shape local@host.top. */
  lemma CreateMatchesPattern(input: Option<string>)
    ensures Create(input).Returned? <==> input.Some? && MatchesEmailPattern(Normalize(input.value))
  {
    if input.Some? {
      EmailFormatMatchesPattern(Normalize(input.value));
    }
  }

  /** A valid email is recreated unchanged from its own value. */
  lemma CreateOwnValue(email: Email)
    requires email.Valid()
    ensures Create(Some(email.GetValue())) == Returned(email)
  {
    TrimKeepsTrimmed(email.value);
    ToLowerIsLower(email.value);
  }

  /** `create` is idempotent on its own output. */
  lemma CreateIdempotent(input: Option<string>)
    requires Create(input).Returned?
    ensures Create(Some(Create(input).value.GetValue())) == Create(input)
  {
    CreateOwnValue(Create(input).value);
  }

  /** Two inputs give equal emails exactly when they normalise to the same string. */
  lemma EqualsComparesNormalized(a: string, b: string)
    requires Create(Some(a)).Returned? && Create(Some(b)).Returned?
    ensures Create(Some(a)).value.Equals(Create(Some(b)).value) <==> Normalize(a) == Normalize(b)
  {
  }

  /** Normalising twice is normalising once. */
  lemma NormalizeIdempotent(s: string)
    ensures Normalize(Normalize(s)) == Normalize(s)
  {
    ToLowerKeepsTrimmed(Trim(s));
    TrimKeepsTrimmed(Normalize(s));
    ToLowerIsLower(Trim(s));
    ToLowerIsLower(Normalize(s));
  }

  /** Padding and letter case do not matter: an input and its normalised form give the same result. */
  lemma CreateIgnoresPaddingAndCase(s: string)
    ensures Create(Some(s)) == Create(Some(Normalize(s)))
  {
    NormalizeIdempotent(s);
  }
}
