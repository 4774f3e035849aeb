/** The data-annotation attributes the entities and DTOs carry, each as the
    test it applies to a (possibly null) string property. */
module Annotations {
  import opened Common
  import opened Text

  /** The resource name of the message a failed rule shows. */
  datatype Rule = RequiredField | MaxLength | LengthField | PasswordAndConfirmationDifferent

  datatype Violation = Violation(field: string, rule: Rule)

  /** `[Required]` with its default `AllowEmptyStrings = false`: null, empty
      and white-space-only strings fail. */
  predicate Required(v: Option<string>) {
    !IsNullOrWhiteSpace(v)
  }

  /** `[MaxLength(max)]`, on the UTF-16 length: null passes. */
  predicate MaxLengthOk(v: Option<string>, max: nat) {
    v.None? || Utf16Length(v.value) <= max
  }

  /** `[StringLength(max, MinimumLength = min)]`, on the UTF-16 length: null
      passes. */
  predicate StringLengthOk(v: Option<string>, min: nat, max: nat) {
    v.None? || min <= Utf16Length(v.value) <= max
  }

  /** `[Compare(other)]`: equal to the other property, nulls included. */
  predicate CompareOk(v: Option<string>, other: Option<string>) {
    v == other
  }

  /** A required string has at least one character that is not white space. */
  lemma {:induction false} RequiredHasContent(v: Option<string>)
    ensures Required(v) <==> v.Some? && exists i :: 0 <= i < |v.value| && !IsWhiteSpace(v.value[i])
  {
  }

  /** The entity `Name` rule: `[MaxLength(100)]` and `[Required]`. Every
      failing attribute is listed, as when each attribute is checked on its
      own; the order of the list carries no meaning. */
  function NameViolations(field: string, name: string): (r: seq<Violation>)
    ensures r == [] <==> Required(Some(name)) && Utf16Length(name) <= 100
    ensures forall i :: 0 <= i < |r| ==> r[i].field == field
    ensures Violation(field, MaxLength) in r <==> Utf16Length(name) > 100
    ensures Violation(field, RequiredField) in r <==> IsNullOrWhiteSpace(Some(name))
  {
    (if MaxLengthOk(Some(name), 100) then [] else [Violation(field, MaxLength)])
    + (if Required(Some(name)) then [] else [Violation(field, RequiredField)])
  }

  /** A valid name has at least one character and at most 100 UTF-16 code
      units, so at most 100 characters. */
  lemma {:induction false} ValidNameLength(field: string, name: string)
    requires NameViolations(field, name) == []
    ensures 1 <= |name| <= Utf16Length(name) <= 100
  {
    assert !IsNullOrWhiteSpace(Some(name));
  }
}
