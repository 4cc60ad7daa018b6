/** model/system_user_role.go: the role of a user in an organisation, stored as its text. */
module Role {
  import opened Wrappers
  import opened Driver

  const Owner: string := "owner"
  const Employee: string := "employee"
  const Admin: string := "admin"

  /** The three roles the code names are different texts. */
  lemma RolesDistinct()
    ensures Owner != Employee && Owner != Admin && Employee != Admin
  {
  }

  /** A SystemUserRole variable; Scan writes it through its pointer. */
  class SystemUserRole {
    var role: string

    constructor (r: string)
      ensures role == r
    {
      role := r;
    }

    /** Value: the role's text as the driver value. */
    function Value(): (v: SqlValue)
      reads this
      ensures v.SqlText? && v.text == role
    {
      SqlText(role)
    }

    /** Scan: any string, not only the three roles, becomes the role; anything else is refused. */
    method Scan(value: SqlValue) returns (err: Outcome)
      modifies this
      ensures value.SqlText? ==> err == Pass && role == value.text
      ensures !value.SqlText? ==> err == Fail(Message("type assertion to string failed")) && role == old(role)
    {
      if !value.SqlText? {
        return Fail(Message("type assertion to string failed"));
      }
      role := value.text;
      return Pass;
    }

    /** Scanning what Value yields leaves the role as it was. */
    method ScanOwnValue() returns (err: Outcome)
      modifies this
      ensures err == Pass && role == old(role)
    {
      err := Scan(Value());
    }
  }
}
