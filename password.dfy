/** The Password value object (src/user/domain/value-objects/password.vo.ts). It holds a hash. */
module Passwords {
  import opened Hashing
  import opened Throwing

  const HashEmptyMessage := "Password hash cannot be empty."
  const EmptyMessage := "Password cannot be empty."
  const LengthMessage := "Password must be between 8 and 50 characters."
  const MinLength := 8
  const MaxLength := 50

  datatype Password = Password(value: string) {

    predicate Valid() {
      value != ""
    }

    /** `compare(raw)`: whether `raw` is the password this hash was made from. */
    predicate Compare(raw: string) {
      Matches(raw, value)
    }

    function GetValue(): string {
      value
    }
  }

  /** `Password.fromHash(hash)`: wraps a stored hash; an empty hash is a thrown BadRequest. */
  function FromHash(hash: string): (r: Try<Password>)
    ensures r.Returned? <==> hash != ""
    ensures r.Returned? ==> r.value.GetValue() == hash && r.value.Valid()
    ensures r.Threw? ==> r == Threw(BadRequestThrown(HashEmptyMessage))
  {
    if hash == "" then Threw(BadRequestThrown(HashEmptyMessage)) else Returned(Password(hash))
  }

  /**
   * `Password.create(raw)`: rejects the empty string, then a length outside 8..50, and
   * otherwise stores the hash of `raw`.
   */
  function Create(raw: string): (r: Try<Password>)
    ensures r.Returned? <==> MinLength <= |raw| <= MaxLength
    ensures r.Returned? ==> r.value.Valid() && r.value.GetValue() != raw && r.value.Compare(raw)
    ensures raw == "" ==> r == Threw(BadRequestThrown(EmptyMessage))
    ensures raw != "" && r.Threw? ==> r == Threw(BadRequestThrown(LengthMessage))
  {
    if raw == "" then Threw(BadRequestThrown(EmptyMessage))
    else if |raw| < MinLength || |raw| > MaxLength then Threw(BadRequestThrown(LengthMessage))
    else Returned(Password(Hash(raw)))
  }

  /** A created password compares true against its raw password and against no other string. */
  lemma CompareAcceptsOnlyOriginal(raw: string, other: string)
    requires Create(raw).Returned?
    ensures Create(raw).value.Compare(other) <==> other == raw
  {
    HashInjective(other, raw);
  }

  /** Reloading a created password from its stored hash gives the same password back. */
  lemma FromHashOfCreated(raw: string)
    requires Create(raw).Returned?
    ensures FromHash(Create(raw).value.GetValue()) == Create(raw)
  {
  }
}
