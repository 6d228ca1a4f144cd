/** validators/userValidator.go: validation of a user registration or update. */
module UserValidation {
  import opened Outcomes
  import opened FieldValidation
  import opened Dto

  datatype UserError =
    | InvalidFullNameUser
    | InvalidDUIUser
    | InvalidPhoneUser
    | InvalidEmailUser
    | Password(cause: ValidationError)
  {
    function Message(): string {
      match this
      case InvalidFullNameUser => "nombre completo inválido: solo letras y espacios permitidos"
      case InvalidDUIUser => "DUI inválido: formato esperado ########-#"
      case InvalidPhoneUser => "teléfono inválido: formato esperado ####-####"
      case InvalidEmailUser => "correo inválido"
      case Password(cause) => cause.Error()
    }
  }

  /** `ValidateUserDTO`: name, DUI, phone and e-mail failures are replaced by
      this file's own errors; a password failure is passed on unchanged. */
  function ValidateUserDTO(user: UserDTO): (r: Outcome<UserError>)
    ensures r.Pass? <==>
      && IsOnlyLetters(user.fullName) && IsDUIText(user.dui) && IsPhoneText(user.phone)
      && IsEmailText(user.email) && ValidatePassword(user.password).Pass?
    ensures !IsOnlyLetters(user.fullName) ==> r == Fail(InvalidFullNameUser)
    ensures IsOnlyLetters(user.fullName) && !IsDUIText(user.dui) ==> r == Fail(InvalidDUIUser)
    ensures IsOnlyLetters(user.fullName) && IsDUIText(user.dui) && !IsPhoneText(user.phone) ==>
      r == Fail(InvalidPhoneUser)
    ensures (IsOnlyLetters(user.fullName) && IsDUIText(user.dui) && IsPhoneText(user.phone)
             && !IsEmailText(user.email)) ==> r == Fail(InvalidEmailUser)
    ensures (IsOnlyLetters(user.fullName) && IsDUIText(user.dui) && IsPhoneText(user.phone)
             && IsEmailText(user.email) && ValidatePassword(user.password).Fail?) ==>
      r == Fail(Password(ErrInvalidPassword))
  {
    if ValidateFullName(user.fullName).Fail? then Fail(InvalidFullNameUser)
    else if ValidateDUI(user.dui).Fail? then Fail(InvalidDUIUser)
    else if ValidatePhone(user.phone).Fail? then Fail(InvalidPhoneUser)
    else if ValidateEmail(user.email).Fail? then Fail(InvalidEmailUser)
    else
      match ValidatePassword(user.password)
      case Fail(e) => Fail(Password(e))
      case Pass => Pass
  }

  /** A request without a password is judged on the other four fields only. */
  lemma EmptyPasswordNeverRejects(user: UserDTO)
    requires user.password == ""
    ensures ValidateUserDTO(user).Pass? <==>
      IsOnlyLetters(user.fullName) && IsDUIText(user.dui) && IsPhoneText(user.phone)
      && IsEmailText(user.email)
    ensures ValidateUserDTO(user) != Fail(Password(ErrInvalidPassword))
  {
  }

  /** Only the five validated fields matter: id, role and status are ignored. */
  lemma OnlyValidatedFieldsMatter(a: UserDTO, b: UserDTO)
    requires a.fullName == b.fullName && a.dui == b.dui && a.phone == b.phone
    requires a.email == b.email && a.password == b.password
    ensures ValidateUserDTO(a) == ValidateUserDTO(b)
  {
  }
}
