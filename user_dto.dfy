/** entities/dto/userDto.go: the user record as the API shows it. */
module Dto {
  import opened Outcomes
  import opened Uuid
  import opened Entities

  datatype UserRoleDTO = UserRoleDTO(id: int, role: string)

  datatype UserDTO = UserDTO(
    id: string,
    fullName: string,
    dui: string,
    phone: string,
    email: string,
    password: string,
    roleID: int,
    statusID: int,
    role: UserRoleDTO)

  /** Go's zero value `UserDTO{}`. */
  const ZeroUserDTO: UserDTO := UserDTO("", "", "", "", "", "", 0, 0, UserRoleDTO(0, ""))

  /** `ToUserDTO`: copies the public fields; the password hash and the token
      are never copied out. */
  function ToUserDTO(u: User?): (d: UserDTO)
    reads u
    ensures u == null ==> d == ZeroUserDTO
    ensures u != null ==>
      && d.fullName == u.fullName && d.dui == u.dui && d.phone == u.phone && d.email == u.email
      && d.roleID == u.roleID && d.statusID == u.statusID
      && d.role == UserRoleDTO(u.role.id, u.role.role)
    ensures d.password == ""
    ensures u != null ==> d.id == ToString(u.id) && Parse(d.id) == Some(u.id)
  {
    if u == null then ZeroUserDTO
    else
      ParseToString(u.id);
      UserDTO(ToString(u.id), u.fullName, u.dui, u.phone, u.email, "", u.roleID, u.statusID,
              UserRoleDTO(u.role.id, u.role.role))
  }
}
