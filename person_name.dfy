/** The PersonName value object (src/user/domain/value-objects/person-name.vo.ts). */
module PersonNames {
  import opened Optional
  import opened Text
  import opened Throwing

  const MinLength := 3
  const MaxLength := 50

  const NameLabel := "Name"
  const SurnameLabel := "Surname"
  const EmptySuffix := " cannot be empty."
  const LengthSuffix := " must be between 3 and 50 characters."

  /** Which field a name is created for; the label is spliced into the error messages. */
  datatype Field = Name | Surname {
    function Label(): string {
      match this
      case Name => NameLabel
      case Surname => SurnameLabel
    }
  }

  function EmptyMessage(field: Field): string {
    field.Label() + EmptySuffix
  }

  function LengthMessage(field: Field): string {
    field.Label() + LengthSuffix
  }

  datatype PersonName = PersonName(value: string) {

    /** What every name built by `Create` satisfies. */
    predicate Valid() {
      IsTrimmed(value) && MinLength <= |value| <= MaxLength
    }

    function GetValue(): string {
      value
    }
  }

  /**
   * `PersonName.create(value, field)`: null/undefined is rejected, otherwise the trimmed input
   * is kept if its length is within bounds. Failures are thrown BadRequest errors.
   */
  function Create(input: Option<string>, field: Field): (r: Try<PersonName>)
    ensures r.Returned? <==> input.Some? && MinLength <= |Trim(input.value)| <= MaxLength
    ensures r.Returned? ==> r.value.value == Trim(input.value) && r.value.Valid()
    ensures input.None? ==> r == Threw(BadRequestThrown(EmptyMessage(field)))
    ensures input.Some? && r.Threw? ==> r == Threw(BadRequestThrown(LengthMessage(field)))
  {
    match input
    case None => Threw(BadRequestThrown(EmptyMessage(field)))
    case Some(value) =>
      var trimmed := Trim(value);
      if |trimmed| < MinLength || |trimmed| > MaxLength then
        Threw(BadRequestThrown(LengthMessage(field)))
      else
        Returned(PersonName(trimmed))
  }

  /** A valid name is recreated unchanged from its own value. */
  lemma CreateOwnValue(name: PersonName, field: Field)
    requires name.Valid()
    ensures Create(Some(name.GetValue()), field) == Returned(name)
  {
    TrimKeepsTrimmed(name.value);
  }

  /** `create(create(v).getValue())` stores the same string as `create(v)`. */
  lemma CreateIdempotent(input: Option<string>, field: Field)
    requires Create(input, field).Returned?
    ensures Create(Some(Create(input, field).value.GetValue()), field) == Create(input, field)
  {
    CreateOwnValue(Create(input, field).value, field);
  }
}
