/** The request shapes the repositories receive, and the password rules of
    the registration form. `Image` fields carry the base64 photo, or null when
    no photo was sent. */
module Dtos {
  import opened Common
  import opened Text
  import opened Annotations

  datatype TeamDto = TeamDto(id: int, name: string, image: Option<string>, countryId: int)

  datatype TournamentDto = TournamentDto(
    id: int, name: string, image: Option<string>, isActive: bool, remarks: Option<string>)

  datatype GroupDto = GroupDto(
    id: int,
    name: string,
    remarks: Option<string>,
    image: Option<string>,
    isActive: bool,
    adminId: string,
    tournamentId: int)

  /** The filter and the member e-mail of a list request; the page fields
      are not part of this model. */
  datatype PaginationDto = PaginationDto(filter: Option<string>, email: Option<string>)

  /** The two password properties `UserDTO` adds to `User`. */
  datatype UserDto = UserDto(password: Option<string>, passwordConfirm: Option<string>)
  {
    /** The violations of the rules on `Password` and `PasswordConfirm`:
        every failing attribute is listed, as when each attribute is checked
        on its own; the order of the list carries no meaning. */
    function Violations(): seq<Violation>
    {
      (if Required(password) then [] else [Violation("Password", RequiredField)])
      + (if StringLengthOk(password, 6, 20) then [] else [Violation("Password", LengthField)])
      + (if CompareOk(passwordConfirm, password) then []
         else [Violation("PasswordConfirm", PasswordAndConfirmationDifferent)])
      + (if Required(passwordConfirm) then [] else [Violation("PasswordConfirm", RequiredField)])
      + (if StringLengthOk(passwordConfirm, 6, 20) then []
         else [Violation("PasswordConfirm", LengthField)])
    }
  }

  /** A registration passes validation exactly when the password is present,
      not blank, of 6 to 20 UTF-16 code units, and repeated identically. */
  lemma {:induction false} UserDtoValidIff(dto: UserDto)
    ensures dto.Violations() == [] <==>
      && dto.password.Some?
      && !IsNullOrWhiteSpace(dto.password)
      && 6 <= Utf16Length(dto.password.value) <= 20
      && dto.passwordConfirm == dto.password
  {
  }

  /** Each failed rule is reported, on the field it belongs to. */
  lemma {:induction false} UserDtoViolationsNamed(dto: UserDto)
    ensures Violation("Password", RequiredField) in dto.Violations() <==> IsNullOrWhiteSpace(dto.password)
    ensures Violation("Password", LengthField) in dto.Violations() <==>
      dto.password.Some? && !(6 <= Utf16Length(dto.password.value) <= 20)
    ensures Violation("PasswordConfirm", PasswordAndConfirmationDifferent) in dto.Violations() <==>
      dto.passwordConfirm != dto.password
    ensures Violation("PasswordConfirm", RequiredField) in dto.Violations() <==> IsNullOrWhiteSpace(dto.passwordConfirm)
    ensures Violation("PasswordConfirm", LengthField) in dto.Violations() <==>
      dto.passwordConfirm.Some? && !(6 <= Utf16Length(dto.passwordConfirm.value) <= 20)
  {
    var a := if Required(dto.password) then [] else [Violation("Password", RequiredField)];
    var b := if StringLengthOk(dto.password, 6, 20) then [] else [Violation("Password", LengthField)];
    var c := if CompareOk(dto.passwordConfirm, dto.password) then []
             else [Violation("PasswordConfirm", PasswordAndConfirmationDifferent)];
    var d := if Required(dto.passwordConfirm) then [] else [Violation("PasswordConfirm", RequiredField)];
    var e := if StringLengthOk(dto.passwordConfirm, 6, 20) then [] else [Violation("PasswordConfirm", LengthField)];
    assert dto.Violations() == a + b + c + d + e;
    assert forall x :: x in dto.Violations() <==> x in a || x in b || x in c || x in d || x in e;
  }
}
