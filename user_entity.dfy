/** entities/user.go: the stored user record and its creation hook.
    The GORM-managed timestamps `CreatedAt` and `UpdatedAt` are not modelled. */
module Entities {
  import opened Outcomes
  import opened Uuid

  /** The role a user's `RoleID` refers to (1 owner, 2 veterinarian). */
  datatype UserRole = UserRole(id: int, role: string)

  class User {
    var id: UUID
    var fullName: string
    var dui: string
    var phone: string
    var email: string
    var passwordHash: string
    var roleID: int
    var statusID: int
    var token: string
    var role: UserRole

    /** A user as the controller builds it before saving: the id is still `uuid.Nil`. */
    constructor (fullName: string, dui: string, phone: string, email: string,
                 passwordHash: string, roleID: int, statusID: int)
      ensures id == Nil
      ensures this.fullName == fullName && this.dui == dui && this.phone == phone
      ensures this.email == email && this.passwordHash == passwordHash
      ensures this.roleID == roleID && this.statusID == statusID
      ensures token == "" && role == UserRole(0, "")
    {
      id := Nil;
      this.fullName, this.dui, this.phone, this.email := fullName, dui, phone, email;
      this.passwordHash, this.roleID, this.statusID := passwordHash, roleID, statusID;
      token := "";
      role := UserRole(0, "");
    }

    /** `BeforeCreate`: gives the user a fresh id unless it already has one.
        `generated` stands for the value of `uuid.New()`, which is never `uuid.Nil`.
        Only the id may change, and the returned error is always nil. */
    method BeforeCreate(generated: UUID) returns (err: Option<string>)
      requires generated != Nil
      modifies this`id
      ensures old(id) == Nil ==> id == generated
      ensures old(id) != Nil ==> id == old(id)
      ensures id != Nil
      ensures err == None
    {
      if id == Nil {
        id := generated;
      }
      err := None;
    }
  }

  /** Running the hook a second time keeps the id the first run settled on. */
  method BeforeCreateTwice(u: User, first: UUID, second: UUID)
    requires first != Nil && second != Nil
    modifies u`id
    ensures u.id == (if old(u.id) == Nil then first else old(u.id))
  {
    var _ := u.BeforeCreate(first);
    ghost var settled := u.id;
    var _ := u.BeforeCreate(second);
    assert u.id == settled;
  }
}
