/** validators/adminValidator.go: validation of an administrator registration. */
module AdminValidation {
  import opened Outcomes
  import opened Text
  import opened FieldValidation

  /** The registration request (its Go type lives in a file not part of this model). */
  datatype AdminRegisterDTO = AdminRegisterDTO(
    fullName: string,
    username: string,
    dui: string,
    phone: string,
    email: string,
    password: string,
    adminTypeID: int)

  datatype AdminError =
    | InvalidFullNameAdmin
    | InvalidUsernameAdmin
    | InvalidDUIAdmin
    | InvalidPhoneAdmin
    | InvalidEmailAdmin
    | InvalidPasswordAdmin
    | InvalidAdminTypeAdmin
  {
    function Message(): string {
      match this
      case InvalidFullNameAdmin => "Nombre completo inválido: solo letras y espacios permitidos"
      case InvalidUsernameAdmin => "Nombre de usuario inválido: debe tener entre 3 y 50 caracteres"
      case InvalidDUIAdmin => "DUI inválido: formato esperado ########-#"
      case InvalidPhoneAdmin => "Teléfono inválido: formato esperado ####-####"
      case InvalidEmailAdmin => "Correo inválido"
      case InvalidPasswordAdmin => "Contraseña inválida: mínimo 6 caracteres si se proporciona"
      case InvalidAdminTypeAdmin => "Tipo de administrador inválido"
    }
  }

  const MinUsernameLen := 3
  const MaxUsernameLen := 50

  /** Between 3 and 50 bytes, both ends included. */
  function ValidateUsername(username: string): (r: Outcome<AdminError>)
    ensures r.Pass? <==> 3 <= ByteLen(username) <= 50
    ensures r.Fail? ==> r.error == InvalidUsernameAdmin
  {
    if ByteLen(username) < MinUsernameLen || ByteLen(username) > MaxUsernameLen then
      Fail(InvalidUsernameAdmin)
    else Pass
  }

  function ValidateAdminTypeID(adminTypeID: int): (r: Outcome<AdminError>)
    ensures r.Pass? <==> adminTypeID > 0
    ensures r.Fail? ==> r.error == InvalidAdminTypeAdmin
  {
    if adminTypeID <= 0 then Fail(InvalidAdminTypeAdmin) else Pass
  }

  /** The seven checks of `ValidateAdminRegisterDTO` in order, each with the
      error it reports. */
  function AdminChecks(admin: AdminRegisterDTO): (checks: seq<Outcome<AdminError>>)
    ensures |checks| == 7
  {
    [ Remap(ValidateFullName(admin.fullName), InvalidFullNameAdmin),
      ValidateUsername(admin.username),
      Remap(ValidateDUI(admin.dui), InvalidDUIAdmin),
      Remap(ValidatePhone(admin.phone), InvalidPhoneAdmin),
      Remap(ValidateEmail(admin.email), InvalidEmailAdmin),
      Remap(ValidatePassword(admin.password), InvalidPasswordAdmin),
      Remap(ValidateAdminTypeID(admin.adminTypeID), InvalidAdminTypeAdmin) ]
  }

  /** All seven checks hold. */
  ghost predicate IsValidAdmin(admin: AdminRegisterDTO) {
    && IsOnlyLetters(admin.fullName)
    && 3 <= ByteLen(admin.username) <= 50
    && IsDUIText(admin.dui)
    && IsPhoneText(admin.phone)
    && IsEmailText(admin.email)
    && (admin.password == "" || ByteLen(admin.password) >= 6)
    && admin.adminTypeID > 0
  }

  /** `ValidateAdminRegisterDTO`: the checks in order, stopping at the first error. */
  function ValidateAdminRegisterDTO(admin: AdminRegisterDTO): (r: Outcome<AdminError>)
    ensures r.Pass? <==> IsValidAdmin(admin)
    ensures r.Fail? ==> exists k :: 0 <= k < 7 && AdminChecks(admin)[k] == r
                          && forall j :: 0 <= j < k ==> AdminChecks(admin)[j].Pass?
  {
    var cs := AdminChecks(admin);
    assert (forall k :: 0 <= k < 7 ==> cs[k].Pass?) <==>
      cs[0].Pass? && cs[1].Pass? && cs[2].Pass? && cs[3].Pass? && cs[4].Pass? && cs[5].Pass? && cs[6].Pass?;
    FirstFailure(cs)
  }

  /** The error of the earliest failing check is the one reported. */
  lemma AdminFirstFailureDecides(admin: AdminRegisterDTO, k: nat)
    requires k < 7 && AdminChecks(admin)[k].Fail?
    requires forall j :: 0 <= j < k ==> AdminChecks(admin)[j].Pass?
    ensures ValidateAdminRegisterDTO(admin) == AdminChecks(admin)[k]
  {
    FirstFailureIsEarliest(AdminChecks(admin), k);
  }

  /** A registration without a password is never rejected for it. */
  lemma EmptyPasswordAccepted(admin: AdminRegisterDTO)
    requires admin.password == ""
    ensures ValidateAdminRegisterDTO(admin) != Fail(InvalidPasswordAdmin)
  {
    var cs := AdminChecks(admin);
    var r := ValidateAdminRegisterDTO(admin);
    if r.Fail? {
      var k :| 0 <= k < 7 && cs[k] == r && forall j :: 0 <= j < k ==> cs[j].Pass?;
      assert cs[5].Pass?;
      assert k != 5;
    }
  }
}
